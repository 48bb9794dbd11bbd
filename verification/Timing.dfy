/** The two clocks together: the polling loop of one probe bounds the waiting loop around it. */
module Timing {
  import opened Basics
  import opened WakeCore
  import Engine

  /** A probe says "no" only when its own timeout has passed. */
  ghost predicate Patient(script: Script) {
    forall k: nat :: script.probe(k) == Success(false) ==> script.probeTime(k) >= Engine.PROBE_TIMEOUT
  }

  /** The least time at which `n` probes can have been answered "no", counted from the accepted
      wake request. */
  function Refused(interval: nat, n: nat): nat {
    if n == 0 then 0 else Refused(interval, n - 1) + Engine.PROBE_TIMEOUT + if n > 1 then interval else 0
  }

  /** The timeout leaves room for an n-th probe. */
  predicate Possible(target: WakeTarget, n: nat) {
    n == 1 || (n > 1 && Refused(target.probeInterval, n - 1) < target.probeTimeout)
  }

  lemma {:induction false} RefusedIs(interval: nat, n: nat)
    requires n > 0
    ensures Refused(interval, n) == n * Engine.PROBE_TIMEOUT + (n - 1) * interval
  {
    if n > 1 {
      RefusedIs(interval, n - 1);
      assert (n - 1) * interval == (n - 2) * interval + interval;
    }
  }

  lemma {:induction false} RefusedGrows(interval: nat, m: nat, n: nat)
    requires m <= n
    ensures Refused(interval, m) <= Refused(interval, n)
    decreases n
  {
    if m < n {
      RefusedGrows(interval, m, n - 1);
    }
  }

  lemma {:induction false} RefusalsTake(script: Script, target: WakeTarget, k: nat)
    requires Patient(script) && Unanswered(script, target, k + 1)
    ensures ProbeEnd(script, target.probeInterval, k) >= Refused(target.probeInterval, k + 1)
  {
    assert Continues(script, target, k);
    if k > 0 {
      RefusalsTake(script, target, k - 1);
    }
  }

  /** An attempt whose probes are patient never makes more probes than there is room for. */
  lemma PatientBudget(script: Script, target: WakeTarget, o: Outcome)
    requires Patient(script) && Decides(script, target, o) && ProbesOf(o) > 0
    ensures Possible(target, ProbesOf(o))
  {
    var n := ProbesOf(o);
    if n > 1 {
      assert Continues(script, target, n - 2);
      RefusalsTake(script, target, n - 2);
    }
  }

  /** What a run of `ping` was given, what its polls showed, and how it ended. */
  datatype PingRun = PingRun(bind: Result<(), string>, send: Result<(), string>, poll: nat -> seq<Engine.Icmp>,
                             answer: Result<bool, Engine.NetError>, sleeps: nat)

  /** The k-th probe of the address is this run of `ping`: it gives its answer, an engine error as
      a text, and takes its time. */
  ghost predicate IsPing(script: Script, address: Ipv4, k: nat, run: PingRun) {
    && Engine.PingEnds(address, run.bind, run.send, Engine.PROBE_TIMEOUT, run.poll, run.answer, run.sleeps)
    && script.probeTime(k) == run.sleeps * Engine.POLL_INTERVAL
    && (if run.answer.Success? then script.probe(k) == Success(run.answer.value) else script.probe(k).Failure?)
  }

  ghost predicate SomePing(script: Script, address: Ipv4, k: nat) { exists run :: IsPing(script, address, k, run) }

  /** Every probe of the script is some run of the `ping` loop. */
  ghost predicate ProbesArePings(script: Script) {
    script.resolve.Success? ==> forall k: nat :: SomePing(script, script.resolve.value, k)
  }

  lemma PingTime(script: Script, a: Ipv4, k: nat)
    requires ProbesArePings(script) && script.resolve == Success(a)
    ensures script.probeTime(k) <= Engine.PROBE_TIMEOUT
    ensures script.probe(k) == Success(false) ==> script.probeTime(k) == Engine.PROBE_TIMEOUT
  {
    hide Engine.Silent, Engine.HasReply, Engine.BreaksFirst;
    assert SomePing(script, a, k);
    var run :| IsPing(script, a, k, run);
    Engine.ReadinessProbeTime(run.sleeps);
  }

  /** The k-th probe, pinging `a`, saw the awaited reply at its last poll, with no receive error
      before it, and nothing at the polls before. */
  ghost predicate SawReply(script: Script, a: Ipv4, k: nat) {
    exists run :: IsPing(script, a, k, run)
      && (exists i :: 0 <= i < |run.poll(run.sleeps)| && run.poll(run.sleeps)[i] == Engine.EchoReply(a, 0x574b, 1)
                      && forall j :: 0 <= j < i ==> !run.poll(run.sleeps)[j].Broken?)
      && forall m: nat | m < run.sleeps :: Engine.Silent(run.poll(m), a)
  }

  /** It saw neither that reply nor a receive error at any poll. */
  ghost predicate SawNothing(script: Script, a: Ipv4, k: nat) {
    exists run :: IsPing(script, a, k, run) && forall m: nat | m <= run.sleeps :: Engine.Silent(run.poll(m), a)
  }

  lemma AnswerIsSeen(script: Script, a: Ipv4, k: nat)
    requires SomePing(script, a, k)
    ensures script.probe(k) == Success(true) ==> SawReply(script, a, k)
    ensures script.probe(k) == Success(false) ==> SawNothing(script, a, k)
  {
    hide Engine.Silent, Engine.BreaksFirst;
    var run :| IsPing(script, a, k, run);
    if script.probe(k) == Success(true) {
      assert run.answer == Success(true);
      assert Engine.HasReply(run.poll(run.sleeps), a);
    }
  }

  /** The two loops together: an attempt that succeeds at its n-th probe saw the reply of the
      resolved address in that probe and nothing in the n - 1 before, and one that times out saw
      nothing in any. */
  lemma ReachedMeansReply(script: Script, target: WakeTarget, o: Outcome)
    requires Decides(script, target, o) && ProbesArePings(script) && ProbesOf(o) > 0
    ensures script.resolve == Success(o.address)
    ensures forall k: nat | k + 1 < ProbesOf(o) :: SawNothing(script, o.address, k)
    ensures o.Reached? ==> SawReply(script, o.address, o.probes - 1)
    ensures o.TimedOut? ==> SawNothing(script, o.address, o.probes - 1)
  {
    hide SawReply, SawNothing, SomePing, ProbeEnd;
    var a, n := o.address, ProbesOf(o);
    forall k: nat | k + 1 < n
      ensures SawNothing(script, a, k)
    {
      assert Continues(script, target, k);
      AnswerIsSeen(script, a, k);
    }
    AnswerIsSeen(script, a, n - 1);
  }

  lemma {:induction false} RefusalsTakeExactly(script: Script, target: WakeTarget, k: nat)
    requires ProbesArePings(script) && script.resolve.Success? && forall j: nat :: script.oversleep(j) == 0
    requires Unanswered(script, target, k) && script.probe(k) == Success(false)
    ensures ProbeEnd(script, target.probeInterval, k) == Refused(target.probeInterval, k + 1)
  {
    PingTime(script, script.resolve.value, k);
    if k > 0 {
      assert Continues(script, target, k - 1);
      RefusalsTakeExactly(script, target, k - 1);
    }
  }

  /** With exact sleeps, an attempt with the default target makes at most 61 probes: it times out
      after exactly 61, 60.75 s after the accepted wake request, unless something ends it before. */
  lemma DefaultAttemptBounds(script: Script, mac: MacAddress, o: Outcome)
    requires Decides(script, NewTarget(mac), o) && ProbesArePings(script)
    requires forall k: nat :: script.oversleep(k) == 0
    ensures ProbesOf(o) <= 61
    ensures o.TimedOut? ==>
              ProbesOf(o) == 61 && ProbeEnd(script, NewTarget(mac).probeInterval, 60) == 60_750 * MILLISECOND
  {
    var target, n := NewTarget(mac), ProbesOf(o);
    if n > 0 {
      forall k: nat
        ensures script.probe(k) == Success(false) ==> script.probeTime(k) >= Engine.PROBE_TIMEOUT
      {
        PingTime(script, o.address, k);
      }
      PatientBudget(script, target, o);
      RefusedIs(target.probeInterval, n);
      if n > 1 {
        RefusedIs(target.probeInterval, n - 1);
      }
      if o.TimedOut? {
        RefusalsTakeExactly(script, target, n - 1);
      }
    }
  }
}
