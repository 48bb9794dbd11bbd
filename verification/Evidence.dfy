/** What a success proves. A wake attempt through the real backend, step by step, together with
    the network it talks to: the FRITZ!Box answers requests, hosts may send packets at any time,
    late or twice, and what the client believes rests only on what it receives. */
module Evidence {
  import opened Basics
  import opened WakeCore
  import WakeTrace
  import Engine
  import Timing
  import Hosts
  import Lookup
  import Address

  /** The network events, in order: first the echo requests of earlier tunnels, which hosts may
      still answer, and then those of this attempt. */
  datatype Entry =
    | LookupAnswered(response: string)
    | WakeAnswered(response: string)
    | EchoRequested(target: Ipv4)
    | EchoAnswered(source: Ipv4, request: nat)  // the index of the request it answers
    | Unrelated

  /** Where the client stands. Between probes it is `Waiting`; `Ended` comes after the last
      report. */
  datatype Pc =
    | Started
    | Connected
    | Resolved(address: Ipv4)
    | Waiting(address: Ipv4)
    | Pinging(address: Ipv4)
    | Ended(outcome: Outcome)

  /** A packet on its way to the client and, if a host sent it as an answer, the index of that
      entry. */
  datatype Arrival = Arrival(packet: Engine.Icmp, answer: Option<nat>)

  /** A probe that was answered "no": how long it took, and by how much the sleep after it was too
      long. */
  datatype Round = Round(lasted: nat, oversleep: nat)

  /** `earlier` are the targets of the echo requests of earlier tunnels; `liars` are the hosts
      that may send echo replies to no request at all; `counted` is the answer whose packet
      ended the attempt; `clock` is the time since the accepted wake request, at the start of the
      current probe or at the last timeout check. */
  datatype State = State(target: WakeTarget, liars: set<Ipv4>, earlier: seq<Ipv4>, pc: Pc, probes: nat,
                         trace: seq<Event>, log: seq<Entry>, inbox: seq<Arrival>, counted: Option<nat>,
                         clock: nat, rounds: seq<Round>)

  /** The error texts of failed calls are arbitrary. */
  datatype Step =
    | ConnectEnds(result: Result<(), string>)
    | LookupEnds(response: string, detail: string)
    | LookupFails(detail: string)  // no answer at all
    | WakeEnds(response: string, detail: string)
    | WakeFails(detail: string)
    | BeginProbe
    | ReceivePacket
    | ProbeFails(detail: string)  // the request could not be sent, or the engine has stopped
    | ProbeTimesOut(late: nat, oversleep: nat)
    | HostAnswers(request: nat)
    | HostSends(packet: Engine.Icmp)

  predicate LooksLikeReply(p: Engine.Icmp) {
    p.EchoReply? && p.ident == Engine.ICMP_IDENT && p.sequence == Engine.ICMP_SEQUENCE
  }

  function EarlierLog(earlier: seq<Ipv4>): seq<Entry> {
    seq(|earlier|, i requires 0 <= i < |earlier| => EchoRequested(earlier[i]))
  }

  function Initial(target: WakeTarget, liars: set<Ipv4>, earlier: seq<Ipv4>): State {
    State(target, liars, earlier, Started, 0, [Report(WakeState.Connecting)], EarlierLog(earlier), [], None, 0, [])
  }

  /** The client moves on, having seen `events`. */
  function Continue(s: State, pc: Pc, events: seq<Event>): State {
    s.(pc := pc, trace := s.trace + events)
  }

  /** The attempt ends: the last call is followed by the closing events. */
  function EndWith(s: State, events: seq<Event>, o: Outcome): State {
    s.(pc := Ended(o), trace := s.trace + events + Closing(o, s.target))
  }

  function Noted(s: State, e: Entry): State { s.(log := s.log + [e]) }

  function Received(s: State): State
    requires s.pc.Pinging? && s.inbox != []
  {
    var rest := s.(inbox := s.inbox[1..]);
    var verdict := Engine.Scan([s.inbox[0].packet], s.pc.address);
    if verdict.Replied? then
      EndWith(rest, [Probe(s.pc.address)], Reached(s.pc.address, s.probes)).(counted := s.inbox[0].answer)
    else if verdict.Failed? then
      EndWith(rest, [Probe(s.pc.address)], ProbeFailed(s.pc.address, s.probes, verdict.detail))
    else rest
  }

  /** The probe is answered "no", its own timeout having passed; then comes the timeout check. */
  function Refused(s: State, late: nat, oversleep: nat): State
    requires s.pc.Pinging?
  {
    var lasted := Engine.PROBE_TIMEOUT + late;
    var now := s.clock + lasted;
    var checked := s.(clock := now, rounds := s.rounds + [Round(lasted, oversleep)]);
    if now >= s.target.probeTimeout then EndWith(checked, [Probe(s.pc.address)], TimedOut(s.pc.address, s.probes))
    else Continue(checked, Waiting(s.pc.address), [Probe(s.pc.address)]).(
      clock := now + s.target.probeInterval + oversleep)
  }

  /** One step; a step that is not possible changes nothing. */
  function Apply(s: State, step: Step): State {
    match step
    case ConnectEnds(result) =>
      if !s.pc.Started? then s
      else if result.Failure? then EndWith(s, [Connect(false)], ConnectFailed(result.error))
      else Continue(s, Connected, [Connect(true), Report(ResolvingPc)])
    case LookupEnds(response, detail) =>
      if !s.pc.Connected? then s
      else
        var answered, address := Noted(s, LookupAnswered(response)), Hosts.ResolvedIp(response);
        if address.Failure? then EndWith(answered, [Resolve(s.target.mac)], ResolveFailed(detail))
        else Continue(answered, Resolved(address.value), [Resolve(s.target.mac), Report(Waking)])
    case LookupFails(detail) =>
      if s.pc.Connected? then EndWith(s, [Resolve(s.target.mac)], ResolveFailed(detail)) else s
    case WakeEnds(response, detail) =>
      if !s.pc.Resolved? then s
      else
        var answered := Noted(s, WakeAnswered(response));
        if Hosts.WakeAccepted(response).Failure? then EndWith(answered, [SendWake(s.target.mac)], WakeFailed(detail))
        else Continue(answered, Waiting(s.pc.address), [SendWake(s.target.mac)])
    case WakeFails(detail) =>
      if s.pc.Resolved? then EndWith(s, [SendWake(s.target.mac)], WakeFailed(detail)) else s
    case BeginProbe =>
      if !s.pc.Waiting? then s
      else Noted(Continue(s, Pinging(s.pc.address), [Report(WaitingForPc(Attempt(s.probes + 1)))]),
                 EchoRequested(s.pc.address)).(probes := s.probes + 1)
    case ReceivePacket => if s.pc.Pinging? && s.inbox != [] then Received(s) else s
    case ProbeFails(detail) =>
      if s.pc.Pinging? then EndWith(s, [Probe(s.pc.address)], ProbeFailed(s.pc.address, s.probes, detail)) else s
    case ProbeTimesOut(late, oversleep) => if s.pc.Pinging? then Refused(s, late, oversleep) else s
    case HostAnswers(k) =>
      if k < |s.log| && s.log[k].EchoRequested? then
        var reply := Engine.EchoReply(s.log[k].target, Engine.ICMP_IDENT, Engine.ICMP_SEQUENCE);
        Noted(s, EchoAnswered(s.log[k].target, k)).(inbox := s.inbox + [Arrival(reply, Some(|s.log|))])
      else s
    case HostSends(p) =>
      if LooksLikeReply(p) && p.source !in s.liars then s
      else Noted(s, Unrelated).(inbox := s.inbox + [Arrival(p, None)])
  }

  function Follow(s: State, steps: seq<Step>): State {
    if steps == [] then s else Apply(Follow(s, steps[..|steps| - 1]), steps[|steps| - 1])
  }

  // ---------------------------------------------------------------------------------------
  // The reported events are those of run_wake
  // ---------------------------------------------------------------------------------------

  /** The events so far, at each place of the client. */
  ghost predicate TraceOk(s: State) {
    var opening := [Report(WakeState.Connecting)];
    match s.pc
    case Started => s.trace == opening
    case Connected => s.trace == opening + [Connect(true), Report(ResolvingPc)]
    case Resolved(_) =>
      s.trace == opening + [Connect(true), Report(ResolvingPc), Resolve(s.target.mac), Report(Waking)]
    case Waiting(a) => s.trace == opening + Stages(Reached(a, 0), s.target.mac) + Waits(a, s.probes)
    case Pinging(a) =>
      s.probes > 0 && s.trace == opening + Stages(Reached(a, 0), s.target.mac) + Waits(a, s.probes - 1)
                                 + [Report(WaitingForPc(Attempt(s.probes)))]
    case Ended(o) => s.trace == TraceOf(o, s.target)
  }

  predicate ProbesOk(s: State) {
    match s.pc
    case Waiting(_) => true
    case Pinging(_) => true
    case Ended(o) => ProbesOf(o) > 0 ==> ProbesOf(o) == s.probes
    case _ => s.probes == 0
  }

  lemma PingRound(before: seq<Event>, a: Ipv4, n: nat)
    requires n > 0
    ensures before + Waits(a, n - 1) + [Report(WaitingForPc(Attempt(n)))] + [Probe(a)] == before + Waits(a, n)
  {
    var round := [Report(WaitingForPc(Attempt(n)))] + [Probe(a)];
    assert Waits(a, n) == Waits(a, n - 1) + round;
    Append(before, Waits(a, n - 1), [Report(WaitingForPc(Attempt(n)))], [Probe(a)]);
  }

  /** The end of a probe completes the trace of its outcome. */
  lemma ProbeEnds(s: State, o: Outcome)
    requires s.pc.Pinging? && TraceOk(s) && ProbesOk(s)
    requires (o.Reached? || o.ProbeFailed? || o.TimedOut?) && o.address == s.pc.address && o.probes == s.probes
    ensures TraceOk(EndWith(s, [Probe(s.pc.address)], o))
  {
    var opening, stages := [Report(WakeState.Connecting)], Stages(Reached(s.pc.address, 0), s.target.mac);
    PingRound(opening + stages, s.pc.address, s.probes);
    assert Body(o, s.target.mac) == stages + Waits(s.pc.address, s.probes);
    hide Waits, Stages, Closing;
    assert opening + stages + Waits(s.pc.address, s.probes) == opening + Body(o, s.target.mac);
  }

  lemma EarlyStepKeepsTrace(s: State, step: Step)
    requires TraceOk(s) && ProbesOk(s)
    requires s.pc.Started? || s.pc.Connected? || s.pc.Resolved?
    requires step.ConnectEnds? || step.LookupEnds? || step.LookupFails? || step.WakeEnds? || step.WakeFails?
    ensures TraceOk(Apply(s, step)) && ProbesOk(Apply(s, step))
  {
    hide Hosts.ResolvedIp, Hosts.WakeAccepted;
    var s' := Apply(s, step);
    if s' != s && s'.pc.Ended? {
      var o := s'.pc.outcome;
      assert Body(o, s.target.mac) == Stages(o, s.target.mac);
    } else if s'.pc.Waiting? {
      assert Waits(s'.pc.address, 0) == [];
    }
  }

  lemma StepKeepsTrace(s: State, step: Step)
    requires TraceOk(s) && ProbesOk(s)
    ensures TraceOk(Apply(s, step)) && ProbesOk(Apply(s, step))
  {
    hide Hosts.ResolvedIp, Hosts.WakeAccepted, Engine.Scan;
    var s' := Apply(s, step);
    if step.ConnectEnds? || step.LookupEnds? || step.LookupFails? || step.WakeEnds? || step.WakeFails? {
      if s.pc.Started? || s.pc.Connected? || s.pc.Resolved? {
        EarlyStepKeepsTrace(s, step);
      }
    } else if s.pc.Pinging? {
      if s'.pc.Ended? {
        ProbeEnds(s, s'.pc.outcome);
      } else if s'.pc.Waiting? {
        PingRound([Report(WakeState.Connecting)] + Stages(Reached(s.pc.address, 0), s.target.mac), s.pc.address, s.probes);
      }
    }
  }

  lemma StepKeepsTarget(s: State, step: Step)
    ensures Apply(s, step).target == s.target && Apply(s, step).liars == s.liars && Apply(s, step).earlier == s.earlier
  {
    hide Hosts.ResolvedIp, Hosts.WakeAccepted, Closing;
  }

  /** When the attempt has ended, its reports and backend calls are exactly the trace of its
      outcome. */
  lemma {:induction false} FollowKeepsTrace(target: WakeTarget, liars: set<Ipv4>, earlier: seq<Ipv4>, steps: seq<Step>)
    ensures var s := Follow(Initial(target, liars, earlier), steps);
      && TraceOk(s) && ProbesOk(s)
      && (s.pc.Ended? ==> s.trace == TraceOf(s.pc.outcome, target))
      && s.target == target && s.liars == liars && s.earlier == earlier
  {
    if steps != [] {
      var before, step := Follow(Initial(target, liars, earlier), steps[..|steps| - 1]), steps[|steps| - 1];
      FollowKeepsTrace(target, liars, earlier, steps[..|steps| - 1]);
      StepKeepsTrace(before, step);
      StepKeepsTarget(before, step);
      assert Follow(Initial(target, liars, earlier), steps) == Apply(before, step);
      hide Apply, Waits, Stages, Closing, Initial;
    }
  }

  // ---------------------------------------------------------------------------------------
  // The attempt is a run of run_wake
  // ---------------------------------------------------------------------------------------

  /** The start of the k-th probe, after those rounds. */
  function RoundStart(rounds: seq<Round>, interval: nat, k: nat): nat
    requires k <= |rounds|
  {
    if k == 0 then 0
    else RoundStart(rounds, interval, k - 1) + rounds[k - 1].lasted + interval + rounds[k - 1].oversleep
  }

  /** The timeout had not passed at the end of round `k`. */
  predicate InTime(target: WakeTarget, rounds: seq<Round>, k: nat)
    requires k < |rounds|
  {
    RoundStart(rounds, target.probeInterval, k) + rounds[k].lasted < target.probeTimeout
  }

  /** Each round took its probe's timeout, and none of the first `n` passed that of the attempt. */
  predicate RoundsOk(target: WakeTarget, rounds: seq<Round>, n: nat) {
    && n <= |rounds| && (forall k :: 0 <= k < |rounds| ==> rounds[k].lasted >= Engine.PROBE_TIMEOUT)
    && (forall k :: 0 <= k < n ==> InTime(target, rounds, k))
  }

  predicate TimeOk(s: State) {
    var n := |s.rounds|;
    match s.pc
    case Waiting(_) =>
      n == s.probes && RoundsOk(s.target, s.rounds, n) && s.clock == RoundStart(s.rounds, s.target.probeInterval, n)
    case Pinging(_) =>
      n + 1 == s.probes && RoundsOk(s.target, s.rounds, n) && s.clock == RoundStart(s.rounds, s.target.probeInterval, n)
    case Ended(o) =>
      && ((o.Reached? || o.ProbeFailed?) ==> n + 1 == o.probes && RoundsOk(s.target, s.rounds, n))
      && (o.TimedOut? ==> n == o.probes > 0 && RoundsOk(s.target, s.rounds, n - 1) && !InTime(s.target, s.rounds, n - 1))
    case _ => n == 0 && s.clock == 0 && s.probes == 0
  }

  lemma {:induction false} RoundStartLasts(rounds: seq<Round>, r: Round, interval: nat, k: nat)
    requires k <= |rounds|
    ensures RoundStart(rounds + [r], interval, k) == RoundStart(rounds, interval, k)
  {
    if k > 0 {
      RoundStartLasts(rounds, r, interval, k - 1);
    }
  }

  lemma RoundsLast(target: WakeTarget, rounds: seq<Round>, r: Round)
    requires RoundsOk(target, rounds, |rounds|) && r.lasted >= Engine.PROBE_TIMEOUT
    ensures RoundsOk(target, rounds + [r], |rounds|)
  {
    forall k | 0 <= k < |rounds|
      ensures InTime(target, rounds + [r], k)
    {
      RoundStartLasts(rounds, r, target.probeInterval, k);
      assert InTime(target, rounds, k);
    }
  }

  lemma RefusedKeepsTime(s: State, late: nat, oversleep: nat)
    requires TimeOk(s) && s.pc.Pinging?
    ensures TimeOk(Refused(s, late, oversleep))
  {
    hide Closing;
    var r := Round(Engine.PROBE_TIMEOUT + late, oversleep);
    var n := |s.rounds|;
    RoundsLast(s.target, s.rounds, r);
    RoundStartLasts(s.rounds, r, s.target.probeInterval, n);
    assert (s.rounds + [r])[n] == r;
  }

  lemma ProbeStepKeepsTime(s: State, step: Step)
    requires TimeOk(s) && (step.BeginProbe? || step.ReceivePacket? || step.ProbeFails?)
    ensures TimeOk(Apply(s, step))
  {
    hide Engine.Scan, Closing, RoundsOk, InTime;
  }

  lemma OtherStepKeepsTime(s: State, step: Step)
    requires TimeOk(s) && !step.BeginProbe? && !step.ReceivePacket? && !step.ProbeFails? && !step.ProbeTimesOut?
    ensures TimeOk(Apply(s, step))
  {
    assert RoundsOk(s.target, [], 0);
    hide Hosts.ResolvedIp, Hosts.WakeAccepted, Closing, RoundsOk, InTime;
  }

  lemma StepKeepsTime(s: State, step: Step)
    requires TimeOk(s)
    ensures TimeOk(Apply(s, step))
  {
    if step.ProbeTimesOut? {
      hide TimeOk, Refused;
      if s.pc.Pinging? {
        RefusedKeepsTime(s, step.late, step.oversleep);
      }
    } else if step.BeginProbe? || step.ReceivePacket? || step.ProbeFails? {
      hide TimeOk, Apply;
      ProbeStepKeepsTime(s, step);
    } else {
      hide TimeOk, Apply;
      OtherStepKeepsTime(s, step);
    }
  }

  lemma {:induction false} FollowKeepsTime(target: WakeTarget, liars: set<Ipv4>, earlier: seq<Ipv4>, steps: seq<Step>)
    ensures TimeOk(Follow(Initial(target, liars, earlier), steps))
  {
    assert TimeOk(Initial(target, liars, earlier));
    hide TimeOk, Apply, Initial;
    if steps != [] {
      FollowKeepsTime(target, liars, earlier, steps[..|steps| - 1]);
      StepKeepsTime(Follow(Initial(target, liars, earlier), steps[..|steps| - 1]), steps[|steps| - 1]);
    }
  }

  /** An environment that forces the outcome: its probes take the times of the rounds. */
  function ScriptOf(o: Outcome, rounds: seq<Round>): Script {
    Script(
      if o.ConnectFailed? then Failure(o.detail) else Success(()),
      if o.ResolveFailed? then Failure(o.detail)
      else Success(if ProbesOf(o) > 0 then o.address else Ipv4(0, 0, 0, 0)),
      if o.WakeFailed? then Failure(o.detail) else Success(()),
      (k: nat) => if k + 1 < ProbesOf(o) || o.TimedOut? then Success(false)
           else if o.ProbeFailed? then Failure(o.detail)
           else Success(true),
      (k: nat) => if k < |rounds| then rounds[k].lasted else Engine.PROBE_TIMEOUT,
      (k: nat) => if k < |rounds| then rounds[k].oversleep else 0)
  }

  lemma {:induction false} ScriptStart(o: Outcome, rounds: seq<Round>, interval: nat, k: nat)
    requires k <= |rounds|
    ensures ProbeStart(ScriptOf(o, rounds), interval, k) == RoundStart(rounds, interval, k)
  {
    if k > 0 {
      ScriptStart(o, rounds, interval, k - 1);
    }
  }

  lemma ScriptContinues(o: Outcome, target: WakeTarget, rounds: seq<Round>, n: nat)
    requires RoundsOk(target, rounds, n) && (n < ProbesOf(o) || o.TimedOut?)
    ensures Unanswered(ScriptOf(o, rounds), target, n)
  {
    forall k: nat | k < n
      ensures Continues(ScriptOf(o, rounds), target, k)
    {
      ScriptStart(o, rounds, target.probeInterval, k);
      assert InTime(target, rounds, k);
    }
  }

  /** Every ended attempt is a run of `run_wake`: some script of the backend, in which every "no" of
      a probe takes its timeout, forces the outcome, and the events are those of that outcome. */
  lemma EndedRunIsDecided(target: WakeTarget, liars: set<Ipv4>, earlier: seq<Ipv4>, steps: seq<Step>)
    returns (script: Script)
    requires Follow(Initial(target, liars, earlier), steps).pc.Ended?
    ensures var s := Follow(Initial(target, liars, earlier), steps);
      Timing.Patient(script) && Decides(script, target, s.pc.outcome) && s.trace == TraceOf(s.pc.outcome, target)
  {
    FollowKeepsTrace(target, liars, earlier, steps);
    FollowKeepsTime(target, liars, earlier, steps);
    var s := Follow(Initial(target, liars, earlier), steps);
    hide Follow, Initial, TraceOk, TraceOf;
    var o, n := s.pc.outcome, |s.rounds|;
    script := ScriptOf(o, s.rounds);
    if o.Reached? || o.ProbeFailed? {
      ScriptContinues(o, target, s.rounds, n);
    } else if o.TimedOut? {
      ScriptContinues(o, target, s.rounds, n - 1);
      ScriptStart(o, s.rounds, target.probeInterval, n - 1);
    }
  }

  /** A call that fails ends the attempt at its stage, with its own text; one that succeeds does not. */
  lemma FailuresEnd(s: State, step: Step)
    ensures s.pc.Started? && step.ConnectEnds? && step.result.Failure? ==>
              Apply(s, step).pc == Ended(ConnectFailed(step.result.error))
    ensures s.pc.Connected? && (step.LookupFails? || (step.LookupEnds? && Hosts.ResolvedIp(step.response).Failure?)) ==>
              Apply(s, step).pc == Ended(ResolveFailed(step.detail))
    ensures s.pc.Connected? && step.LookupEnds? ==>
              forall a :: Apply(s, step).pc == Resolved(a) <==> Hosts.ResolvedIp(step.response) == Success(a)
    ensures s.pc.Resolved? && (step.WakeFails? || (step.WakeEnds? && Hosts.WakeAccepted(step.response).Failure?)) ==>
              Apply(s, step).pc == Ended(WakeFailed(step.detail))
    ensures s.pc.Resolved? && step.WakeEnds? ==>
              (Apply(s, step).pc == Waiting(s.pc.address) <==> Hosts.WakeAccepted(step.response).Success?)
    ensures s.pc.Pinging? && step.ProbeFails? ==>
              Apply(s, step).pc == Ended(ProbeFailed(s.pc.address, s.probes, step.detail))
  {
    hide Hosts.ResolvedIp, Hosts.WakeAccepted, Closing, Engine.Scan;
  }

  // ---------------------------------------------------------------------------------------
  // Each probe is a ping
  // ---------------------------------------------------------------------------------------

  function Packets(inbox: seq<Arrival>): seq<Engine.Icmp> {
    seq(|inbox|, i requires 0 <= i < |inbox| => inbox[i].packet)
  }

  lemma {:induction false} FollowFirst(s: State, first: Step, rest: seq<Step>)
    ensures Follow(s, [first] + rest) == Follow(Apply(s, first), rest)
  {
    var steps := [first] + rest;
    if rest == [] {
      assert steps[..0] == [] && steps[0] == first;
    } else {
      FollowFirst(s, first, rest[..|rest| - 1]);
      assert steps[..|steps| - 1] == [first] + rest[..|rest| - 1];
    }
  }

  /** The first packet decides, or is passed over. */
  lemma ReceivedMeans(s: State)
    requires s.pc.Pinging? && s.inbox != []
    ensures var s', p, a := Apply(s, ReceivePacket), s.inbox[0].packet, s.pc.address;
      && s'.probes == s.probes && s'.inbox == s.inbox[1..]
      && s'.pc == (if p.Broken? then Ended(ProbeFailed(a, s.probes, p.detail))
                   else if Engine.Matches(p, a) then Ended(Reached(a, s.probes))
                   else s.pc)
  {
    Engine.ScanCons(s.inbox[0].packet, [], s.pc.address);
    assert [s.inbox[0].packet] + [] == [s.inbox[0].packet];
    hide Closing, Engine.Matches;
  }

  lemma {:induction false} EndedStays(s: State, n: nat)
    requires s.pc.Ended?
    ensures Follow(s, seq(n, _ => ReceivePacket)) == s
  {
    if n > 0 {
      EndedStays(s, n - 1);
      assert seq(n, _ => ReceivePacket)[..n - 1] == seq(n - 1, _ => ReceivePacket);
    }
  }

  /** Taking everything from the inbox decides the probe as the packets would decide a poll of
      `ping`. */
  lemma {:induction false} ReceivingIsPinging(s: State)
    requires s.pc.Pinging?
    ensures var pc, packets, a := Follow(s, seq(|s.inbox|, _ => ReceivePacket)).pc, Packets(s.inbox), s.pc.address;
      && (pc == Ended(Reached(a, s.probes)) <==> Engine.HasReply(packets, a))
      && (pc == s.pc <==> Engine.Silent(packets, a))
      && (forall d :: pc == Ended(ProbeFailed(a, s.probes, d)) <==> Engine.BreaksFirst(packets, a, d))
    decreases |s.inbox|
  {
    if s.inbox != [] {
      var s', first, rest, a := Apply(s, ReceivePacket), s.inbox[0].packet, Packets(s.inbox[1..]), s.pc.address;
      var n := |s.inbox|;
      ReceivedMeans(s);
      assert Packets(s.inbox) == [first] + rest;
      assert seq(n, _ => ReceivePacket) == [ReceivePacket] + seq(n - 1, _ => ReceivePacket);
      FollowFirst(s, ReceivePacket, seq(n - 1, _ => ReceivePacket));
      hide Apply, Engine.HasReply, Engine.Silent, Engine.BreaksFirst, Packets;
      Engine.HasReplyCons(first, rest, a);
      Engine.SilentCons(first, rest, a);
      forall d
        ensures Engine.BreaksFirst([first] + rest, a, d)
           <==> first == Engine.Broken(d) || (!first.Broken? && !Engine.Matches(first, a) && Engine.BreaksFirst(rest, a, d))
      {
        Engine.BreaksFirstCons(first, rest, a, d);
      }
      if s'.pc.Ended? {
        EndedStays(s', n - 1);
      } else {
        ReceivingIsPinging(s');
      }
    }
  }

  /** So it ends, or waits on, as any run of `ping` whose last poll shows the same packets. */
  lemma ReceivingAgreesWithPing(s: State, timeout: nat, poll: nat -> seq<Engine.Icmp>,
                                r: Result<bool, Engine.NetError>, n: nat)
    requires s.pc.Pinging? && poll(n) == Packets(s.inbox)
    requires Engine.PingEnds(s.pc.address, Success(()), Success(()), timeout, poll, r, n)
    ensures var pc, a := Follow(s, seq(|s.inbox|, _ => ReceivePacket)).pc, s.pc.address;
      && (r == Success(true) <==> pc == Ended(Reached(a, s.probes)))
      && (r == Success(false) <==> pc == s.pc)
      && (forall d :: r == Failure(Engine.ReceiveFailed(d)) <==> pc == Ended(ProbeFailed(a, s.probes, d)))
  {
    hide Engine.HasReply, Engine.Silent, Engine.BreaksFirst, Follow, Packets;
    ReceivingIsPinging(s);
  }

  // ---------------------------------------------------------------------------------------
  // The evidence
  // ---------------------------------------------------------------------------------------

  /** The FRITZ!Box resolved the target to `a` in the reply at `l`. */
  ghost predicate ResolvedTo(log: seq<Entry>, l: nat, a: Ipv4) {
    l < |log| && log[l].LookupAnswered? && Hosts.ResolvedIp(log[l].response) == Success(a)
  }

  ghost predicate WakeAcceptedAt(log: seq<Entry>, w: nat) {
    w < |log| && log[w].WakeAnswered? && Hosts.WakeAccepted(log[w].response).Success?
  }

  /** The reply at `r` answers the request to `a` at `q`. */
  predicate AnsweredAt(log: seq<Entry>, q: nat, r: nat, a: Ipv4) {
    q < r < |log| && log[q] == EchoRequested(a) && log[r] == EchoAnswered(a, q)
  }

  /** The entry at `r` is an answer of `a`. */
  predicate IsAnswer(log: seq<Entry>, r: nat, a: Ipv4) {
    r < |log| && log[r].EchoAnswered? && AnsweredAt(log, log[r].request, r, a)
  }

  /** From entry `first` on, requests are only sent after the accepted wake request, to the
      resolved address. */
  ghost predicate RequestsFollow(log: seq<Entry>, first: nat, l: nat, w: nat, a: Ipv4) {
    && first <= l < w && ResolvedTo(log, l, a) && WakeAcceptedAt(log, w)
    && forall q :: first <= q < |log| && log[q].EchoRequested? ==> w < q && log[q].target == a
  }

  ghost predicate SomeRequestsFollow(log: seq<Entry>, first: nat, a: Ipv4) {
    exists l: nat, w: nat :: RequestsFollow(log, first, l, w, a)
  }

  ghost predicate NoRequests(log: seq<Entry>, first: nat) {
    forall q :: first <= q < |log| ==> !log[q].EchoRequested?
  }

  ghost predicate InboxOk(s: State) {
    forall i | 0 <= i < |s.inbox| ::
      LooksLikeReply(s.inbox[i].packet) && s.inbox[i].packet.source !in s.liars ==>
        s.inbox[i].answer.Some? && IsAnswer(s.log, s.inbox[i].answer.value, s.inbox[i].packet.source)
  }

  ghost predicate EarlierOk(s: State) { EarlierLog(s.earlier) <= s.log }

  ghost predicate LogOk(s: State) {
    var first := |s.earlier|;
    match s.pc
    case Resolved(a) => NoRequests(s.log, first) && exists l: nat :: first <= l && ResolvedTo(s.log, l, a)
    case Waiting(a) => SomeRequestsFollow(s.log, first, a)
    case Pinging(a) => SomeRequestsFollow(s.log, first, a)
    case Ended(o) =>
      o.Reached? ==> && SomeRequestsFollow(s.log, first, o.address)
                     && (o.address !in s.liars ==> s.counted.Some? && IsAnswer(s.log, s.counted.value, o.address))
    case _ => NoRequests(s.log, first)
  }

  /** The requests of this attempt, of which there is one for each probe. */
  function RequestsFrom(log: seq<Entry>, first: nat): nat {
    if |log| <= first then 0
    else RequestsFrom(log[..|log| - 1], first) + if log[|log| - 1].EchoRequested? then 1 else 0
  }

  ghost predicate Evident(s: State) {
    LogOk(s) && InboxOk(s) && EarlierOk(s) && RequestsFrom(s.log, |s.earlier|) == s.probes
  }

  lemma AnswerLasts(log: seq<Entry>, e: Entry, r: nat, a: Ipv4)
    requires IsAnswer(log, r, a)
    ensures IsAnswer(log + [e], r, a)
  {}

  lemma RequestsFollowLasts(log: seq<Entry>, e: Entry, first: nat, l: nat, w: nat, a: Ipv4)
    requires RequestsFollow(log, first, l, w, a) && (e.EchoRequested? ==> e.target == a)
    ensures RequestsFollow(log + [e], first, l, w, a)
  {
    hide Hosts.ResolvedIp, Hosts.WakeAccepted;
    assert forall q :: 0 <= q < |log| ==> (log + [e])[q] == log[q];
  }

  lemma FollowingLasts(log: seq<Entry>, e: Entry, first: nat, a: Ipv4)
    requires SomeRequestsFollow(log, first, a) && (e.EchoRequested? ==> e.target == a)
    ensures SomeRequestsFollow(log + [e], first, a)
  {
    hide RequestsFollow;
    var l: nat, w: nat :| RequestsFollow(log, first, l, w, a);
    RequestsFollowLasts(log, e, first, l, w, a);
  }

  lemma CountLasts(log: seq<Entry>, e: Entry, first: nat)
    requires first <= |log|
    ensures RequestsFrom(log + [e], first) == RequestsFrom(log, first) + if e.EchoRequested? then 1 else 0
  {
    assert (log + [e])[..|log|] == log;
  }

  /** Noting anything but an echo request keeps what the log shows. */
  lemma NotingKeepsLog(s: State, e: Entry)
    requires LogOk(s) && !e.EchoRequested?
    ensures LogOk(Noted(s, e))
  {
    hide Hosts.ResolvedIp, Hosts.WakeAccepted, RequestsFollow, SomeRequestsFollow, IsAnswer;
    match s.pc
    case Resolved(a) =>
      var l: nat :| |s.earlier| <= l && ResolvedTo(s.log, l, a);
      assert ResolvedTo(s.log + [e], l, a);
    case Waiting(a) => FollowingLasts(s.log, e, |s.earlier|, a);
    case Pinging(a) => FollowingLasts(s.log, e, |s.earlier|, a);
    case Ended(o) =>
      if o.Reached? {
        FollowingLasts(s.log, e, |s.earlier|, o.address);
        if o.address !in s.liars {
          AnswerLasts(s.log, e, s.counted.value, o.address);
        }
      }
    case Started =>
    case Connected =>
  }

  lemma NotingKeepsInbox(s: State, e: Entry)
    requires InboxOk(s)
    ensures InboxOk(Noted(s, e))
  {
    hide IsAnswer;
    forall i | 0 <= i < |s.inbox| && LooksLikeReply(s.inbox[i].packet) && s.inbox[i].packet.source !in s.liars
      ensures s.inbox[i].answer.Some? && IsAnswer(s.log + [e], s.inbox[i].answer.value, s.inbox[i].packet.source)
    {
      AnswerLasts(s.log, e, s.inbox[i].answer.value, s.inbox[i].packet.source);
    }
  }

  /** What a step notes is one entry at most, a request exactly when a probe begins. */
  lemma StepNotes(s: State, step: Step)
    ensures var s' := Apply(s, step);
      && s'.earlier == s.earlier
      && if s'.log == s.log then s'.probes == s.probes
         else && |s'.log| == |s.log| + 1 && s'.log == s.log + [s'.log[|s.log|]]
              && s'.probes == s.probes + if s'.log[|s.log|].EchoRequested? then 1 else 0
  {
    hide Hosts.ResolvedIp, Hosts.WakeAccepted, Closing, Engine.Scan;
  }

  lemma StepKeepsCount(s: State, step: Step)
    requires EarlierOk(s) && RequestsFrom(s.log, |s.earlier|) == s.probes
    ensures var s' := Apply(s, step); EarlierOk(s') && RequestsFrom(s'.log, |s'.earlier|) == s'.probes
  {
    StepNotes(s, step);
    var s' := Apply(s, step);
    hide Apply, RequestsFrom;
    if s'.log != s.log {
      CountLasts(s.log, s'.log[|s.log|], |s.earlier|);
    }
  }

  lemma LookupKeepsEvidence(s: State, step: Step)
    requires LogOk(s) && InboxOk(s) && EarlierOk(s) && step.LookupEnds?
    ensures LogOk(Apply(s, step)) && InboxOk(Apply(s, step))
  {
    var s' := Apply(s, step);
    hide Hosts.ResolvedIp, Hosts.WakeAccepted, Closing, IsAnswer;
    if s.pc.Connected? {
      NotingKeepsInbox(s, LookupAnswered(step.response));
      if s'.pc.Resolved? {
        assert ResolvedTo(s'.log, |s.log|, s'.pc.address);
      }
    }
  }

  lemma WakeKeepsEvidence(s: State, step: Step)
    requires LogOk(s) && InboxOk(s) && EarlierOk(s) && step.WakeEnds?
    ensures LogOk(Apply(s, step)) && InboxOk(Apply(s, step))
  {
    var s' := Apply(s, step);
    hide Hosts.ResolvedIp, Hosts.WakeAccepted, Closing, IsAnswer;
    if s.pc.Resolved? {
      NotingKeepsInbox(s, WakeAnswered(step.response));
      if s'.pc.Waiting? {
        var l: nat :| |s.earlier| <= l && ResolvedTo(s.log, l, s.pc.address);
        assert RequestsFollow(s'.log, |s.earlier|, l, |s.log|, s'.pc.address);
      }
    }
  }

  lemma ProbeKeepsEvidence(s: State, step: Step)
    requires LogOk(s) && InboxOk(s) && (step.BeginProbe? || step.ProbeFails? || step.ProbeTimesOut?)
    ensures LogOk(Apply(s, step)) && InboxOk(Apply(s, step))
  {
    hide Hosts.ResolvedIp, Hosts.WakeAccepted, Closing, IsAnswer, RequestsFollow, SomeRequestsFollow;
    if step.BeginProbe? && s.pc.Waiting? {
      NotingKeepsInbox(s, EchoRequested(s.pc.address));
      FollowingLasts(s.log, EchoRequested(s.pc.address), |s.earlier|, s.pc.address);
    }
  }

  /** The packet that ends the attempt came from its host. */
  lemma ReceivedReply(s: State)
    requires s.pc.Pinging? && s.inbox != [] && Received(s).pc.Ended? && Received(s).pc.outcome.Reached?
    ensures LooksLikeReply(s.inbox[0].packet) && s.inbox[0].packet.source == s.pc.address
  {
    Engine.ScanFindsReply([s.inbox[0].packet], s.pc.address);
    hide Closing, Engine.Scan;
  }

  lemma ReceivedState(s: State)
    requires s.pc.Pinging? && s.inbox != []
    ensures var s' := Received(s);
      && s'.log == s.log && s'.inbox == s.inbox[1..] && s'.liars == s.liars && s'.earlier == s.earlier
      && (s'.pc == s.pc || s'.pc.Ended?)
      && (s'.pc.Ended? && s'.pc.outcome.Reached? ==> s'.pc.outcome.address == s.pc.address && s'.counted == s.inbox[0].answer)
  {
    hide Closing, Engine.Scan;
  }

  lemma InboxTailOk(s: State, s': State)
    requires InboxOk(s) && s.inbox != []
    requires s'.inbox == s.inbox[1..] && s'.log == s.log && s'.liars == s.liars
    ensures InboxOk(s')
  {
    hide IsAnswer;
    assert forall i :: 0 <= i < |s'.inbox| ==> s'.inbox[i] == s.inbox[i + 1];
  }

  lemma InboxHeadOk(s: State)
    requires InboxOk(s) && s.inbox != [] && LooksLikeReply(s.inbox[0].packet) && s.inbox[0].packet.source !in s.liars
    ensures s.inbox[0].answer.Some? && IsAnswer(s.log, s.inbox[0].answer.value, s.inbox[0].packet.source)
  {}

  lemma ProbeOverLogOk(s: State, s': State)
    requires LogOk(s) && s.pc.Pinging? && s'.log == s.log && s'.earlier == s.earlier && s'.liars == s.liars
    requires s'.pc == s.pc || s'.pc.Ended?
    requires s'.pc.Ended? && s'.pc.outcome.Reached? ==>
      && s'.pc.outcome.address == s.pc.address
      && (s.pc.address !in s.liars ==> s'.counted.Some? && IsAnswer(s.log, s'.counted.value, s.pc.address))
    ensures LogOk(s')
  {
    hide SomeRequestsFollow, IsAnswer, NoRequests, ResolvedTo;
  }

  lemma ReceiveKeepsEvidence(s: State)
    requires LogOk(s) && InboxOk(s) && s.pc.Pinging? && s.inbox != []
    ensures LogOk(Received(s)) && InboxOk(Received(s))
  {
    hide Received, IsAnswer, SomeRequestsFollow, InboxOk, LooksLikeReply, NoRequests, LogOk;
    var s' := Received(s);
    ReceivedState(s);
    InboxTailOk(s, s');
    if s'.pc.Ended? && s'.pc.outcome.Reached? {
      ReceivedReply(s);
      if s.pc.address !in s.liars {
        InboxHeadOk(s);
      }
    }
    ProbeOverLogOk(s, s');
  }

  lemma EndingKeepsEvidence(s: State, step: Step)
    requires LogOk(s) && InboxOk(s) && (step.ConnectEnds? || step.LookupFails? || step.WakeFails?)
    ensures LogOk(Apply(s, step)) && InboxOk(Apply(s, step))
  {
    hide Hosts.ResolvedIp, Hosts.WakeAccepted, Closing, IsAnswer, RequestsFollow, SomeRequestsFollow;
  }

  /** What the log shows does not depend on what is on its way. */
  lemma LogOkAnyInbox(s: State, inbox: seq<Arrival>)
    requires LogOk(s)
    ensures LogOk(s.(inbox := inbox))
  {
    hide IsAnswer, SomeRequestsFollow, NoRequests, ResolvedTo;
  }

  lemma ArrivalKeepsInbox(s: State, arrival: Arrival)
    requires InboxOk(s)
    requires LooksLikeReply(arrival.packet) && arrival.packet.source !in s.liars ==>
      arrival.answer.Some? && IsAnswer(s.log, arrival.answer.value, arrival.packet.source)
    ensures InboxOk(s.(inbox := s.inbox + [arrival]))
  {
    hide IsAnswer;
  }

  lemma HostStepKeepsEvidence(s: State, step: Step)
    requires LogOk(s) && InboxOk(s) && (step.HostAnswers? || step.HostSends?)
    ensures LogOk(Apply(s, step)) && InboxOk(Apply(s, step))
  {
    var s' := Apply(s, step);
    hide LogOk, InboxOk;
    if s' != s {
      var e, arrival := s'.log[|s.log|], s'.inbox[|s.inbox|];
      assert s' == Noted(s, e).(inbox := s.inbox + [arrival]) && !e.EchoRequested?;
      NotingKeepsLog(s, e);
      NotingKeepsInbox(s, e);
      LogOkAnyInbox(Noted(s, e), s.inbox + [arrival]);
      ArrivalKeepsInbox(Noted(s, e), arrival);
    }
  }

  lemma StepKeepsEvidence(s: State, step: Step)
    requires Evident(s)
    ensures Evident(Apply(s, step))
  {
    StepKeepsCount(s, step);
    hide LogOk, InboxOk, EarlierOk, RequestsFrom;
    if step.LookupEnds? {
      LookupKeepsEvidence(s, step);
    } else if step.WakeEnds? {
      WakeKeepsEvidence(s, step);
    } else if step.BeginProbe? || step.ProbeFails? || step.ProbeTimesOut? {
      ProbeKeepsEvidence(s, step);
    } else if step.ReceivePacket? {
      if s.pc.Pinging? && s.inbox != [] {
        ReceiveKeepsEvidence(s);
      }
    } else if step.HostAnswers? || step.HostSends? {
      HostStepKeepsEvidence(s, step);
    } else {
      EndingKeepsEvidence(s, step);
    }
  }

  lemma InitiallyEvident(target: WakeTarget, liars: set<Ipv4>, earlier: seq<Ipv4>)
    ensures Evident(Initial(target, liars, earlier))
  {}

  lemma {:induction false} FollowKeepsEvidence(target: WakeTarget, liars: set<Ipv4>, earlier: seq<Ipv4>, steps: seq<Step>)
    ensures Evident(Follow(Initial(target, liars, earlier), steps))
  {
    InitiallyEvident(target, liars, earlier);
    hide Evident, Apply, Initial;
    if steps != [] {
      FollowKeepsEvidence(target, liars, earlier, steps[..|steps| - 1]);
      StepKeepsEvidence(Follow(Initial(target, liars, earlier), steps[..|steps| - 1]), steps[|steps| - 1]);
    }
  }

  lemma AwakeClosing(o: Outcome, target: WakeTarget)
    ensures Report(Awake) in Closing(o, target) <==> o.Reached?
  {}

  /** Awake is only among the reports of an attempt that reached its host. */
  lemma AwakeMeansReached(s: State)
    requires TraceOk(s) && Awake in WakeTrace.Reports(s.trace)
    ensures s.pc.Ended? && s.pc.outcome.Reached?
  {
    WakeTrace.ReportedBy(s.trace, Awake);
    hide Waits, WakeTrace.Reports, Body;
    if s.pc.Ended? {
      WakeTrace.BodyIsNotTerminal(s.pc.outcome, s.target);
      AwakeClosing(s.pc.outcome, s.target);
      hide Closing;
    } else if s.pc.Waiting? {
      WakeTrace.WaitsAreNotTerminal(s.pc.address, s.probes);
    } else if s.pc.Pinging? {
      WakeTrace.WaitsAreNotTerminal(s.pc.address, s.probes - 1);
    }
  }

  /** No false Awake. If an attempt has reported Awake, then in this attempt, in this order: the
      reply to the lookup had status 2xx and named an address; the wake request was accepted with
      a 2xx reply; and then the reply that counted came from that address. Unless that host sends
      replies to no request at all, the reply answers an echo request to it (RFC 792, Echo or Echo
      Reply Message) - one sent after the accepted wake request, or one of an earlier tunnel. */
  lemma NoFalseAwake(target: WakeTarget, liars: set<Ipv4>, earlier: seq<Ipv4>, steps: seq<Step>)
    returns (a: Ipv4, l: nat, w: nat, q: nat, r: nat)
    requires Awake in WakeTrace.Reports(Follow(Initial(target, liars, earlier), steps).trace)
    ensures var s := Follow(Initial(target, liars, earlier), steps);
      && s.pc.Ended? && s.pc.outcome.Reached? && s.pc.outcome.address == a
      && |earlier| <= l < w && ResolvedTo(s.log, l, a) && WakeAcceptedAt(s.log, w)
      && (a !in liars ==> s.counted == Some(r) && AnsweredAt(s.log, q, r, a))
      && (a !in liars ==> if q < |earlier| then earlier[q] == a else w < q)
  {
    FollowKeepsTrace(target, liars, earlier, steps);
    FollowKeepsEvidence(target, liars, earlier, steps);
    var s := Follow(Initial(target, liars, earlier), steps);
    hide Follow, Initial, TraceOk, ProbesOk, RequestsFrom, InboxOk, Hosts.ResolvedIp, Hosts.WakeAccepted;
    AwakeMeansReached(s);
    a := s.pc.outcome.address;
    l, w :| RequestsFollow(s.log, |earlier|, l, w, a);
    q, r := 0, 0;
    if a !in liars {
      r := s.counted.value;
      q := s.log[r].request;
      if q < |earlier| {
        assert s.log[q] == EarlierLog(earlier)[q];
      }
    }
  }

  // ---------------------------------------------------------------------------------------
  // Which request the counted reply answers
  // ---------------------------------------------------------------------------------------

  predicate ReachedIn(s: State, a: Ipv4, n: nat) { s.pc == Ended(Reached(a, n)) }

  /** The reply that counted answers the request at `q`. */
  predicate Counts(s: State, q: nat) {
    s.counted.Some? && s.counted.value < |s.log|
    && s.log[s.counted.value].EchoAnswered? && s.log[s.counted.value].request == q
  }

  predicate LastRequest(log: seq<Entry>, q: nat) {
    q < |log| && log[q].EchoRequested? && forall j :: q < j < |log| ==> !log[j].EchoRequested?
  }

  /** It answers the request of the probe in progress. */
  predicate CountsCurrent(s: State) { exists q: nat :: q < |s.log| && Counts(s, q) && LastRequest(s.log, q) }

  /** It answers a request of this attempt. */
  predicate CountsOwn(s: State) { exists q: nat :: |s.earlier| <= q < |s.log| && Counts(s, q) }

  lemma {:induction false} SomeRequest(log: seq<Entry>, first: nat, q: nat)
    requires first <= q < |log| && log[q].EchoRequested?
    ensures RequestsFrom(log, first) >= 1
    decreases |log|
  {
    if q < |log| - 1 {
      SomeRequest(log[..|log| - 1], first, q);
    }
  }

  lemma {:induction false} TwoRequests(log: seq<Entry>, first: nat, q: nat, q': nat)
    requires first <= q < q' < |log| && log[q].EchoRequested? && log[q'].EchoRequested?
    ensures RequestsFrom(log, first) >= 2
    decreases |log|
  {
    if q' < |log| - 1 {
      TwoRequests(log[..|log| - 1], first, q, q');
    } else {
      SomeRequest(log[..|log| - 1], first, q);
    }
  }

  /** An attempt that succeeds at its first probe has sent one request, and if no earlier tunnel
      asked its host, that is the one the counted reply answers. */
  lemma FirstProbeCounts(target: WakeTarget, liars: set<Ipv4>, earlier: seq<Ipv4>, a: Ipv4, steps: seq<Step>)
    requires a !in liars && a !in earlier && ReachedIn(Follow(Initial(target, liars, earlier), steps), a, 1)
    ensures var s := Follow(Initial(target, liars, earlier), steps);
      RequestsFrom(s.log, |earlier|) == 1 && CountsCurrent(s) && CountsOwn(s)
  {
    var s := Follow(Initial(target, liars, earlier), steps);
    FollowKeepsTrace(target, liars, earlier, steps);
    FollowKeepsEvidence(target, liars, earlier, steps);
    hide Follow, Initial, TraceOk, InboxOk, SomeRequestsFollow, RequestsFrom;
    var q := s.log[s.counted.value].request;
    CountedIsOwn(s, a, q);
    assert Counts(s, q);
    forall j: nat | q < j < |s.log|
      ensures !s.log[j].EchoRequested?
    {
      if s.log[j].EchoRequested? {
        TwoRequests(s.log, |earlier|, q, j);
        assert false;
      }
    }
  }

  lemma CountedIsOwn(s: State, a: Ipv4, q: nat)
    requires EarlierOk(s) && a !in s.earlier
    requires s.counted.Some? && IsAnswer(s.log, s.counted.value, a) && q == s.log[s.counted.value].request
    ensures |s.earlier| <= q < |s.log|
  {
    var n := |s.earlier|;
    assert s.log[..n] == EarlierLog(s.earlier);
    assert forall k :: 0 <= k < n ==> s.log[k] == s.log[..n][k] && s.earlier[k] in s.earlier;
  }

  lemma FollowOne(s: State, steps: seq<Step>, step: Step)
    ensures Follow(s, steps + [step]) == Apply(Follow(s, steps), step)
  {
    assert (steps + [step])[..|steps|] == steps;
  }

  /** Replies a FRITZ!Box can give. */
  function LookupReply(a: Ipv4): string { Lookup.Reply(Lookup.LookupReply(Address.PrintIpv4(a))) }

  function WakeReply(): string { Lookup.Reply(Lookup.WAKE_REPLY) }

  lemma RepliesAreGood(a: Ipv4)
    ensures Hosts.ResolvedIp(LookupReply(a)) == Success(a) && Hosts.WakeAccepted(WakeReply()).Success?
  {
    hide Hosts.HttpStatus, Hosts.HostIp, Lookup.Reply, Lookup.LookupReply;
    Lookup.ReplyFields(a);
    Lookup.ReplyStatus(Lookup.LookupReply(Address.PrintIpv4(a)));
    Lookup.ReplyStatus(Lookup.WAKE_REPLY);
  }

  /** The log of an attempt during its n-th probe, when no host has answered anything. */
  function ProbedLog(earlier: seq<Ipv4>, a: Ipv4, n: nat): seq<Entry> {
    EarlierLog(earlier) + [LookupAnswered(LookupReply(a)), WakeAnswered(WakeReply())] + seq(n, _ => EchoRequested(a))
  }

  /** The client has made `n` probes, none of them late, and received nothing. */
  ghost predicate Unheard(s: State, target: WakeTarget, liars: set<Ipv4>, earlier: seq<Ipv4>, a: Ipv4, n: nat) {
    && s.target == target && s.liars == liars && s.earlier == earlier
    && s.probes == n && s.inbox == [] && s.log == ProbedLog(earlier, a, n)
  }

  /** It is about to make another one. */
  ghost predicate Ready(s: State, target: WakeTarget, liars: set<Ipv4>, earlier: seq<Ipv4>, a: Ipv4, n: nat) {
    && s.pc == Waiting(a) && Unheard(s, target, liars, earlier, a, n)
    && s.clock == Timing.Refused(target.probeInterval, n) + if n > 0 then target.probeInterval else 0
  }

  lemma WokenSteps(target: WakeTarget, liars: set<Ipv4>, earlier: seq<Ipv4>, a: Ipv4) returns (steps: seq<Step>)
    ensures var s := Follow(Initial(target, liars, earlier), steps);
      Ready(s, target, liars, earlier, a, 0)
  {
    RepliesAreGood(a);
    hide Hosts.ResolvedIp, Hosts.WakeAccepted, LookupReply, WakeReply, EarlierLog, Closing;
    var start := Initial(target, liars, earlier);
    FollowOne(start, [], ConnectEnds(Success(())));
    var first := [] + [ConnectEnds(Success(()))];
    FollowOne(start, first, LookupEnds(LookupReply(a), ""));
    var second := first + [LookupEnds(LookupReply(a), "")];
    FollowOne(start, second, WakeEnds(WakeReply(), ""));
    steps := second + [WakeEnds(WakeReply(), "")];
    assert ProbedLog(earlier, a, 0) == EarlierLog(earlier) + [LookupAnswered(LookupReply(a))] + [WakeAnswered(WakeReply())];
  }

  lemma NextProbe(s: State, target: WakeTarget, liars: set<Ipv4>, earlier: seq<Ipv4>, a: Ipv4, n: nat)
    requires Ready(s, target, liars, earlier, a, n)
    ensures var s' := Apply(s, BeginProbe); s'.pc == Pinging(a) && Unheard(s', target, liars, earlier, a, n + 1)
    ensures Timing.Refused(target.probeInterval, n + 1) < target.probeTimeout ==>
              Ready(Apply(Apply(s, BeginProbe), ProbeTimesOut(0, 0)), target, liars, earlier, a, n + 1)
  {
    hide EarlierLog, LookupReply, WakeReply;
    assert ProbedLog(earlier, a, n) + [EchoRequested(a)] == ProbedLog(earlier, a, n + 1);
  }

  /** Any number of probes there is room for can time out. */
  lemma {:induction false} ProbeSteps(target: WakeTarget, liars: set<Ipv4>, earlier: seq<Ipv4>, a: Ipv4, n: nat)
    returns (steps: seq<Step>)
    requires n > 0 ==> Timing.Refused(target.probeInterval, n) < target.probeTimeout
    ensures Ready(Follow(Initial(target, liars, earlier), steps), target, liars, earlier, a, n)
  {
    var start := Initial(target, liars, earlier);
    hide Initial, Apply, Unheard, Ready, Follow;
    if n == 0 {
      steps := WokenSteps(target, liars, earlier, a);
    } else {
      Timing.RefusedGrows(target.probeInterval, n - 1, n);
      steps := ProbeSteps(target, liars, earlier, a, n - 1);
      NextProbe(Follow(start, steps), target, liars, earlier, a, n - 1);
      FollowOne(start, steps, BeginProbe);
      FollowOne(start, steps + [BeginProbe], ProbeTimesOut(0, 0));
      steps := steps + [BeginProbe] + [ProbeTimesOut(0, 0)];
    }
  }

  lemma AnswerEnds(s: State, a: Ipv4, q: nat)
    requires s.pc == Pinging(a) && s.inbox == [] && q < |s.log| && s.log[q] == EchoRequested(a)
    ensures var s' := Apply(Apply(s, HostAnswers(q)), ReceivePacket);
      ReachedIn(s', a, s.probes) && Counts(s', q) && s'.log == s.log + [EchoAnswered(a, q)] && s'.earlier == s.earlier
  {
    var reply := Engine.EchoReply(a, Engine.ICMP_IDENT, Engine.ICMP_SEQUENCE);
    var s1 := Apply(s, HostAnswers(q));
    assert s1.inbox == [Arrival(reply, Some(|s.log|))];
    Engine.ScanFindsReply([reply], a);
    assert Engine.Matches([reply][0], a);
    hide Closing, Engine.Scan;
  }

  /** All echo requests carry the same identifier and sequence number, so any answer counts. An
      attempt can succeed at any probe it has time for by the answer to any request to its host:
      one of an earlier tunnel, or an earlier one of its own. */
  lemma AnyAnswerCounts(target: WakeTarget, liars: set<Ipv4>, earlier: seq<Ipv4>, a: Ipv4, n: nat, q: nat)
    returns (steps: seq<Step>)
    requires Timing.Possible(target, n) && q < |ProbedLog(earlier, a, n)| && ProbedLog(earlier, a, n)[q] == EchoRequested(a)
    ensures var s := Follow(Initial(target, liars, earlier), steps);
      ReachedIn(s, a, n) && Counts(s, q) && s.log == ProbedLog(earlier, a, n) + [EchoAnswered(a, q)] && s.earlier == earlier
  {
    var start := Initial(target, liars, earlier);
    hide Initial, Apply, Follow, ProbedLog, ReachedIn, Counts;
    steps := ProbeSteps(target, liars, earlier, a, n - 1);
    NextProbe(Follow(start, steps), target, liars, earlier, a, n - 1);
    FollowOne(start, steps, BeginProbe);
    var probing := steps + [BeginProbe];
    AnswerEnds(Follow(start, probing), a, q);
    FollowOne(start, probing, HostAnswers(q));
    FollowOne(start, probing + [HostAnswers(q)], ReceivePacket);
    steps := probing + [HostAnswers(q)] + [ReceivePacket];
  }

  /** A success at the n-th probe is possible exactly if there is time for one. */
  lemma ReachedInIff(target: WakeTarget, liars: set<Ipv4>, earlier: seq<Ipv4>, a: Ipv4, n: nat)
    ensures (exists steps :: ReachedIn(Follow(Initial(target, liars, earlier), steps), a, n)) <==> Timing.Possible(target, n)
  {
    if steps :| ReachedIn(Follow(Initial(target, liars, earlier), steps), a, n) {
      var script := EndedRunIsDecided(target, liars, earlier, steps);
      Timing.PatientBudget(script, target, Reached(a, n));
    }
    if Timing.Possible(target, n) {
      var q := LastOfProbedLog(earlier, a, n);
      var steps := AnyAnswerCounts(target, liars, earlier, a, n, q);
      assert ReachedIn(Follow(Initial(target, liars, earlier), steps), a, n);
    }
  }

  lemma LastOfProbedLog(earlier: seq<Ipv4>, a: Ipv4, n: nat) returns (q: nat)
    requires n > 0
    ensures q < |ProbedLog(earlier, a, n)| && ProbedLog(earlier, a, n)[q] == EchoRequested(a)
  {
    hide LookupReply, WakeReply;
    q := |earlier| + 1 + n;
  }

  /** So, for a host that only answers requests: that a success at the n-th probe rests on that
      very probe is certain exactly if it is the first one and no earlier tunnel has asked the
      host, or there is no time for an n-th probe at all. */
  lemma CurrentProbeCountsIff(target: WakeTarget, liars: set<Ipv4>, earlier: seq<Ipv4>, a: Ipv4, n: nat)
    requires a !in liars
    ensures (forall steps :: ReachedIn(Follow(Initial(target, liars, earlier), steps), a, n) ==>
                               CountsCurrent(Follow(Initial(target, liars, earlier), steps)))
       <==> (n == 1 && a !in earlier) || !Timing.Possible(target, n)
  {
    ReachedInIff(target, liars, earlier, a, n);
    if n == 1 && a !in earlier {
      forall steps | ReachedIn(Follow(Initial(target, liars, earlier), steps), a, 1)
        ensures CountsCurrent(Follow(Initial(target, liars, earlier), steps))
      {
        FirstProbeCounts(target, liars, earlier, a, steps);
      }
    } else if Timing.Possible(target, n) {
      var q := StaleRequest(earlier, a, n);
      var steps := AnyAnswerCounts(target, liars, earlier, a, n, q);
      StaleIsNotLast(earlier, a, n, q, Follow(Initial(target, liars, earlier), steps));
      hide CountsCurrent, ReachedIn, Follow;
    }
  }

  /** And that every success rests on a request of its own attempt is certain exactly if no
      earlier tunnel has asked the host. */
  lemma OwnRequestCountsIff(target: WakeTarget, liars: set<Ipv4>, earlier: seq<Ipv4>, a: Ipv4)
    requires a !in liars
    ensures (forall steps, n :: ReachedIn(Follow(Initial(target, liars, earlier), steps), a, n) ==>
                                  CountsOwn(Follow(Initial(target, liars, earlier), steps)))
       <==> a !in earlier
  {
    if a !in earlier {
      forall steps, n | ReachedIn(Follow(Initial(target, liars, earlier), steps), a, n)
        ensures CountsOwn(Follow(Initial(target, liars, earlier), steps))
      {
        OwnRequestCounts(target, liars, earlier, a, n, steps);
      }
    } else {
      var q: nat :| q < |earlier| && earlier[q] == a;
      assert EarlierLog(earlier)[q] == EchoRequested(a);
      var steps := AnyAnswerCounts(target, liars, earlier, a, 1, q);
      var s := Follow(Initial(target, liars, earlier), steps);
      assert !CountsOwn(s) && ReachedIn(s, a, 1);
      hide CountsOwn, ReachedIn, Follow;
    }
  }

  lemma OwnRequestCounts(target: WakeTarget, liars: set<Ipv4>, earlier: seq<Ipv4>, a: Ipv4, n: nat, steps: seq<Step>)
    requires a !in liars && a !in earlier && ReachedIn(Follow(Initial(target, liars, earlier), steps), a, n)
    ensures CountsOwn(Follow(Initial(target, liars, earlier), steps))
  {
    var s := Follow(Initial(target, liars, earlier), steps);
    FollowKeepsTrace(target, liars, earlier, steps);
    FollowKeepsEvidence(target, liars, earlier, steps);
    hide Follow, Initial, TraceOk, InboxOk, SomeRequestsFollow, RequestsFrom;
    var q := s.log[s.counted.value].request;
    CountedIsOwn(s, a, q);
    assert Counts(s, q);
  }

  /** A request to the host that is not the last one: an earlier tunnel's, or the first of two. */
  lemma StaleRequest(earlier: seq<Ipv4>, a: Ipv4, n: nat) returns (q: nat)
    requires n > 1 || (n == 1 && a in earlier)
    ensures q + 1 < |ProbedLog(earlier, a, n)| && ProbedLog(earlier, a, n)[q] == EchoRequested(a)
    ensures ProbedLog(earlier, a, n)[|ProbedLog(earlier, a, n)| - 1].EchoRequested?
  {
    hide LookupReply, WakeReply;
    if a in earlier {
      q :| q < |earlier| && earlier[q] == a;
      assert EarlierLog(earlier)[q] == EchoRequested(a);
    } else {
      q := |earlier| + 2;
    }
  }

  lemma StaleIsNotLast(earlier: seq<Ipv4>, a: Ipv4, n: nat, q: nat, s: State)
    requires q + 1 < |ProbedLog(earlier, a, n)| && ProbedLog(earlier, a, n)[|ProbedLog(earlier, a, n)| - 1].EchoRequested?
    requires Counts(s, q) && s.log == ProbedLog(earlier, a, n) + [EchoAnswered(a, q)]
    ensures !CountsCurrent(s)
  {
    hide ProbedLog;
    var last := |ProbedLog(earlier, a, n)| - 1;
    assert s.log[last].EchoRequested?;
  }
}
