/** What the event sequence of an attempt means to its two audiences: the states the user
    interface receives, and the calls the backend receives. */
module WakeTrace {
  import opened Basics
  import opened WakeCore

  function ReportOf(e: Event): seq<WakeState> { if e.Report? then [e.state] else [] }

  function CallOf(e: Event): seq<Event> { if e.Report? then [] else [e] }

  /** The states reported by a sequence of events, in order. */
  function Reports(es: seq<Event>): seq<WakeState> {
    if es == [] then [] else ReportOf(es[0]) + Reports(es[1..])
  }

  /** The backend calls of a sequence of events, in order. */
  function Calls(es: seq<Event>): seq<Event> {
    if es == [] then [] else CallOf(es[0]) + Calls(es[1..])
  }

  /** Whether the backend may hold a tunnel after these events; a connect that has just failed is
      counted too. */
  predicate Holding(es: seq<Event>) {
    es != [] &&
    match es[|es| - 1]
    case Connect(_) => true
    case Disconnect => false
    case _ => Holding(es[..|es| - 1])
  }

  lemma {:induction false} ReportsConcat(xs: seq<Event>, ys: seq<Event>)
    ensures Reports(xs + ys) == Reports(xs) + Reports(ys)
  {
    if xs == [] {
      assert xs + ys == ys;
    } else {
      calc {
        Reports(xs + ys);
        ReportOf(xs[0]) + Reports((xs + ys)[1..]);
        { assert (xs + ys)[1..] == xs[1..] + ys; ReportsConcat(xs[1..], ys); }
        ReportOf(xs[0]) + (Reports(xs[1..]) + Reports(ys));
        (ReportOf(xs[0]) + Reports(xs[1..])) + Reports(ys);
        Reports(xs) + Reports(ys);
      }
    }
  }

  lemma {:induction false} CallsConcat(xs: seq<Event>, ys: seq<Event>)
    ensures Calls(xs + ys) == Calls(xs) + Calls(ys)
  {
    if xs == [] {
      assert xs + ys == ys;
    } else {
      calc {
        Calls(xs + ys);
        CallOf(xs[0]) + Calls((xs + ys)[1..]);
        { assert (xs + ys)[1..] == xs[1..] + ys; CallsConcat(xs[1..], ys); }
        CallOf(xs[0]) + (Calls(xs[1..]) + Calls(ys));
        (CallOf(xs[0]) + Calls(xs[1..])) + Calls(ys);
        Calls(xs) + Calls(ys);
      }
    }
  }

  /** `WaitingForPc` 1, 2, ..., n, saturated at the largest 32-bit number. */
  function WaitingStates(n: nat): (states: seq<WakeState>)
    ensures |states| == n
    ensures forall k :: 0 <= k < n ==> states[k] == WaitingForPc(if k + 1 <= U32_MAX then k + 1 else U32_MAX)
  {
    seq(n, k requires 0 <= k < n => WaitingForPc(Attempt(k + 1)))
  }

  function ProbeCalls(address: Ipv4, n: nat): (calls: seq<Event>)
    ensures |calls| == n && forall k :: 0 <= k < n ==> calls[k] == Probe(address)
  {
    seq(n, k => Probe(address))
  }

  lemma {:induction false} WaitsReports(address: Ipv4, n: nat)
    ensures Reports(Waits(address, n)) == WaitingStates(n)
  {
    if n > 0 {
      var round := [Report(WaitingForPc(Attempt(n))), Probe(address)];
      assert Waits(address, n) == Waits(address, n - 1) + round;
      hide Reports, Waits;
      WaitsReports(address, n - 1);
      ReportsConcat(Waits(address, n - 1), round);
      PairProjections(round[0], round[1]);
      assert WaitingStates(n) == WaitingStates(n - 1) + [WaitingForPc(Attempt(n))];
    }
  }

  lemma {:induction false} WaitsCalls(address: Ipv4, n: nat)
    ensures Calls(Waits(address, n)) == ProbeCalls(address, n)
  {
    if n > 0 {
      var round := [Report(WaitingForPc(Attempt(n))), Probe(address)];
      assert Waits(address, n) == Waits(address, n - 1) + round;
      hide Calls, Waits;
      WaitsCalls(address, n - 1);
      CallsConcat(Waits(address, n - 1), round);
      PairProjections(round[0], round[1]);
      assert ProbeCalls(address, n) == ProbeCalls(address, n - 1) + [Probe(address)];
    }
  }

  lemma SingleProjections(x: Event)
    ensures Reports([x]) == ReportOf(x) && Calls([x]) == CallOf(x)
  {
    assert [x][1..] == [];
  }

  lemma PairProjections(x: Event, y: Event)
    ensures Reports([x, y]) == ReportOf(x) + ReportOf(y) && Calls([x, y]) == CallOf(x) + CallOf(y)
  {
    SingleProjections(y);
    assert [x, y][1..] == [y];
  }

  // ---------------------------------------------------------------------------------------
  // Complete runs
  // ---------------------------------------------------------------------------------------

  function StageReports(o: Outcome): seq<WakeState> {
    if o.ConnectFailed? then []
    else if o.ResolveFailed? then [ResolvingPc]
    else [ResolvingPc, Waking]
  }

  function StageCalls(o: Outcome, mac: MacAddress): seq<Event> {
    if o.ConnectFailed? then [Connect(false)]
    else if o.ResolveFailed? then [Connect(true), Resolve(mac)]
    else [Connect(true), Resolve(mac), SendWake(mac)]
  }

  function FinalState(o: Outcome, target: WakeTarget): WakeState {
    match FailureOf(o, target)
    case None => Awake
    case Some(f) => Failed(f)
  }

  lemma StagesProjections(o: Outcome, mac: MacAddress)
    ensures Reports(Stages(o, mac)) == StageReports(o)
    ensures Calls(Stages(o, mac)) == StageCalls(o, mac)
  {
    var resolving, waking := [Report(ResolvingPc), Resolve(mac)], [Report(Waking), SendWake(mac)];
    SingleProjections(Connect(!o.ConnectFailed?));
    PairProjections(resolving[0], resolving[1]);
    PairProjections(waking[0], waking[1]);
    ConcatProjections([Connect(true)], resolving);
    ConcatProjections([Connect(true)] + resolving, waking);
    assert o.ResolveFailed? ==> Stages(o, mac) == [Connect(true)] + resolving;
    assert !o.ConnectFailed? && !o.ResolveFailed? ==> Stages(o, mac) == [Connect(true)] + resolving + waking;
  }

  lemma ConcatProjections(xs: seq<Event>, ys: seq<Event>)
    ensures Reports(xs + ys) == Reports(xs) + Reports(ys) && Calls(xs + ys) == Calls(xs) + Calls(ys)
  {
    ReportsConcat(xs, ys);
    CallsConcat(xs, ys);
  }

  lemma BodyProjections(o: Outcome, mac: MacAddress)
    ensures Reports(Body(o, mac)) == StageReports(o) + WaitingStates(ProbesOf(o))
    ensures Calls(Body(o, mac))
         == StageCalls(o, mac) + if ProbesOf(o) > 0 then ProbeCalls(o.address, ProbesOf(o)) else []
  {
    StagesProjections(o, mac);
    if ProbesOf(o) > 0 {
      WaitsReports(o.address, ProbesOf(o));
      WaitsCalls(o.address, ProbesOf(o));
      ConcatProjections(Stages(o, mac), Waits(o.address, ProbesOf(o)));
    } else {
      assert Body(o, mac) == Stages(o, mac);
    }
  }

  lemma ClosingProjections(o: Outcome, target: WakeTarget)
    ensures Reports(Closing(o, target)) == [FinalState(o, target)]
    ensures Calls(Closing(o, target)) == [Disconnect]
  {
    PairProjections(Closing(o, target)[0], Closing(o, target)[1]);
  }

  /** Every complete attempt reports Connecting, ResolvingPc, Waking, WaitingForPc 1..n and
      then Awake or Failed, cut short only by the Failed of the failing stage; and it calls
      connect, resolve, wake and n probes of the resolved address, cut short at the failing
      call, and then disconnect, once and last. */
  lemma CompleteRun(o: Outcome, target: WakeTarget)
    ensures Reports(TraceOf(o, target))
         == [WakeState.Connecting] + StageReports(o) + WaitingStates(ProbesOf(o)) + [FinalState(o, target)]
    ensures Calls(TraceOf(o, target))
         == StageCalls(o, target.mac)
            + (if ProbesOf(o) > 0 then ProbeCalls(o.address, ProbesOf(o)) else [])
            + [Disconnect]
  {
    var first, body, last := [Report(WakeState.Connecting)], Body(o, target.mac), Closing(o, target);
    BodyProjections(o, target.mac);
    SingleProjections(first[0]);
    ClosingProjections(o, target);
    assert TraceOf(o, target) == first + body + last;
    hide *;
    ConcatProjections(first, body);
    ConcatProjections(first + body, last);
    Append([WakeState.Connecting], StageReports(o), WaitingStates(ProbesOf(o)), [FinalState(o, target)]);
  }

  /** The rounds of the waiting loop, one by one. */
  lemma {:induction false} WaitsSpelled(address: Ipv4, n: nat)
    ensures |Waits(address, n)| == 2 * n
    ensures forall k :: 0 <= k < n ==>
              Waits(address, n)[2 * k] == Report(WaitingForPc(if k + 1 <= 0xFFFF_FFFF then k + 1 else 0xFFFF_FFFF))
              && Waits(address, n)[2 * k + 1] == Probe(address)
  {
    if n > 0 {
      WaitsSpelled(address, n - 1);
    }
  }

  /** Every event of every attempt, by the way it ended. */
  lemma TraceSpelled(o: Outcome, target: WakeTarget)
    ensures o.ConnectFailed? ==>
              TraceOf(o, target)
              == [Report(WakeState.Connecting), Connect(false),
                  Disconnect, Report(Failed(WakeFailure(WakeFailureStage.Connecting, o.detail)))]
    ensures o.ResolveFailed? ==>
              TraceOf(o, target)
              == [Report(WakeState.Connecting), Connect(true), Report(ResolvingPc), Resolve(target.mac),
                  Disconnect, Report(Failed(WakeFailure(WakeFailureStage.ResolveTarget, o.detail)))]
    ensures o.WakeFailed? ==>
              TraceOf(o, target)
              == [Report(WakeState.Connecting), Connect(true), Report(ResolvingPc), Resolve(target.mac), Report(Waking),
                  SendWake(target.mac), Disconnect, Report(Failed(WakeFailure(WakeFailureStage.WakeRequest, o.detail)))]
    ensures o.ProbeFailed? && o.probes > 0 ==>
              TraceOf(o, target)
              == Woke(target.mac) + Waits(o.address, o.probes)
              + [Disconnect, Report(Failed(WakeFailure(WakeFailureStage.Probing, o.detail)))]
    ensures o.TimedOut? && o.probes > 0 ==>
              TraceOf(o, target)
              == Woke(target.mac) + Waits(o.address, o.probes)
              + [Disconnect, Report(Failed(WakeFailure(WakeFailureStage.Timeout, TimeoutDetail(target))))]
    ensures o.Reached? && o.probes > 0 ==>
              TraceOf(o, target)
              == Woke(target.mac) + Waits(o.address, o.probes) + [Report(Awake), Disconnect]
  {
    hide TimeoutDetail;
    if ProbesOf(o) > 0 {
      var first, stages := [Report(WakeState.Connecting)], Stages(o, target.mac);
      assert first + stages == Woke(target.mac);
      hide Waits, Stages;
      Append(first, stages, Waits(o.address, ProbesOf(o)), Closing(o, target));
    }
  }

  /** The events up to the accepted wake request. */
  function Woke(mac: MacAddress): seq<Event> {
    [Report(WakeState.Connecting), Connect(true), Report(ResolvingPc), Resolve(mac), Report(Waking), SendWake(mac)]
  }

  /** The tunnel is given up at the end of every attempt. */
  lemma TunnelReleased(o: Outcome, target: WakeTarget)
    ensures !Holding(TraceOf(o, target))
  {
    var t := TraceOf(o, target);
    if FailureOf(o, target).Some? {
      assert t[..|t| - 1][|t| - 2] == Disconnect;
    }
  }

  lemma {:induction false} HoldingLasts(es: seq<Event>, more: seq<Event>)
    requires Holding(es) && Disconnect !in more
    ensures Holding(es + more)
  {
    if more == [] {
      assert es + more == es;
    } else {
      var all := es + more;
      HoldingLasts(es, more[..|more| - 1]);
      assert all[..|all| - 1] == es + more[..|more| - 1];
    }
  }

  // ---------------------------------------------------------------------------------------
  // Runs in progress: what a prefix of the events guarantees to the user interface
  // ---------------------------------------------------------------------------------------

  predicate ReportsTerminal(e: Event) {
    e.Report? && IsTerminal(e.state)
  }

  lemma {:induction false} WaitsAreNotTerminal(address: Ipv4, n: nat)
    ensures forall e <- Waits(address, n) :: !ReportsTerminal(e) && e != Report(Idle)
  {
    if n > 0 {
      WaitsAreNotTerminal(address, n - 1);
    }
  }

  lemma BodyIsNotTerminal(o: Outcome, target: WakeTarget)
    ensures forall e <- [Report(WakeState.Connecting)] + Body(o, target.mac) :: !ReportsTerminal(e) && e != Report(Idle)
  {
    if ProbesOf(o) > 0 {
      WaitsAreNotTerminal(o.address, ProbesOf(o));
    }
  }

  lemma {:induction false} ReportedBy(es: seq<Event>, state: WakeState)
    ensures state in Reports(es) <==> Report(state) in es
  {
    if es != [] {
      ReportedBy(es[1..], state);
      assert es == [es[0]] + es[1..];
    }
  }

  lemma QuietPrefix(o: Outcome, target: WakeTarget, p: seq<Event>)
    requires p <= [Report(WakeState.Connecting)] + Body(o, target.mac)
    ensures !AnyTerminal(Reports(p)) && Idle !in Reports(p)
  {
    var before := [Report(WakeState.Connecting)] + Body(o, target.mac);
    BodyIsNotTerminal(o, target);
    forall s | s in Reports(p)
      ensures !IsTerminal(s) && s != Idle
    {
      ReportedBy(p, s);
      assert Report(s) in before;
    }
  }

  /** A prefix that includes the first closing event. */
  lemma ClosingPrefix(o: Outcome, target: WakeTarget, p: seq<Event>)
    requires p == [Report(WakeState.Connecting)] + Body(o, target.mac) + [Closing(o, target)[0]]
    ensures Reports(p) == Reports([Report(WakeState.Connecting)] + Body(o, target.mac))
                          + if FailureOf(o, target).None? then [Awake] else []
  {
    ReportsConcat([Report(WakeState.Connecting)] + Body(o, target.mac), [Closing(o, target)[0]]);
    SingleProjections(Closing(o, target)[0]);
  }

  /** The guarantee the user interface relies on. However far an attempt has come, either it
      has reported no terminal state and never Idle, or it has reported everything: non-terminal
      states and then the final one. A failure is only reported with the tunnel released. */
  lemma PrefixGuarantee(o: Outcome, target: WakeTarget, p: seq<Event>) returns (quiet: seq<WakeState>)
    requires p <= TraceOf(o, target)
    ensures !AnyTerminal(quiet) && Idle !in quiet
    ensures Reports(p) == quiet
         || (Reports(p) == quiet + [FinalState(o, target)] && (Holding(p) ==> FinalState(o, target) == Awake))
  {
    var before := [Report(WakeState.Connecting)] + Body(o, target.mac);
    QuietPrefix(o, target, before);
    if |p| <= |before| {
      assert p <= before;
      QuietPrefix(o, target, p);
      quiet := Reports(p);
    } else {
      quiet := Reports(before);
      if |p| == |before| + 1 {
        assert p == before + [Closing(o, target)[0]];
        ClosingPrefix(o, target, p);
      } else {
        assert p == TraceOf(o, target);
        ReportsConcat(before, Closing(o, target));
        ClosingProjections(o, target);
        TunnelReleased(o, target);
      }
    }
  }

  lemma NoDisconnectInWaits(address: Ipv4, n: nat)
    ensures Disconnect !in Waits(address, n)
  {
    if n > 0 {
      NoDisconnectInWaits(address, n - 1);
    }
  }

  /** A successful attempt holds its tunnel from its report of Awake to its last event, and it has
      reported Awake no sooner. */
  lemma AwakeHolds(o: Outcome, target: WakeTarget, p: seq<Event>)
    requires o.Reached? && p < TraceOf(o, target)
    ensures Awake in Reports(p) <==> |p| + 1 == |TraceOf(o, target)|
    ensures Awake in Reports(p) ==> Holding(p)
  {
    hide Reports, Body, Holding;
    var before := [Report(WakeState.Connecting)] + Body(o, target.mac);
    if |p| + 1 == |TraceOf(o, target)| {
      assert p == before + [Closing(o, target)[0]];
      ReportedBy(p, Awake);
      assert p[|p| - 1] == Report(Awake);
      SuccessHolds(o, target);
    } else {
      assert p <= before;
      QuietPrefix(o, target, p);
    }
  }

  lemma SuccessHolds(o: Outcome, target: WakeTarget)
    requires o.Reached?
    ensures Holding([Report(WakeState.Connecting)] + Body(o, target.mac) + [Report(Awake)])
  {
    var opening := [Report(WakeState.Connecting), Connect(true)];
    var stages := Stages(o, target.mac);
    var waits := if o.probes > 0 then Waits(o.address, o.probes) else [];
    if o.probes > 0 {
      NoDisconnectInWaits(o.address, o.probes);
    }
    assert Body(o, target.mac) == stages + waits && stages[0] == Connect(true) && Disconnect !in stages[1..];
    assert Holding(opening);
    hide Waits, Stages, Holding, Body;
    var later := stages[1..] + waits + [Report(Awake)];
    HoldingLasts(opening, later);
    assert [Report(WakeState.Connecting)] + (stages + waits) + [Report(Awake)] == opening + later;
  }
}
