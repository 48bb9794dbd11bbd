/** The private network engine: sockets, local ports, and the deadline-polled loops of `http`,
    `probe` and `ping`. What a poll of the interface shows is arbitrary; polls take no time and
    each sleep lasts exactly five milliseconds. */
module Engine {
  import opened Basics

  const POLL_INTERVAL: nat := 5 * MILLISECOND
  const FIRST_PORT: nat := 49_152
  const PORTS: nat := 16_384
  const ICMP_IDENT: nat := 0x574b
  const ICMP_SEQUENCE: nat := 1

  /** All but the last two are `NetError::Network` with different messages. */
  datatype NetError =
    | SetupFailed(detail: string)
    | ConnectionFailed
    | SendFailed(detail: string)
    | DidNotFit
    | ReceiveFailed(detail: string)
    | BindFailed(detail: string)
    | Timeout
    | WorkerStopped

  /** The error returns that leave the socket in the set. */
  predicate LeaksHttp(e: NetError) { e.SendFailed? || e.DidNotFit? || e.ReceiveFailed? }

  predicate LeaksPing(e: NetError) { e.ReceiveFailed? }

  /** The local port of the k-th socket opened. */
  function PortAt(k: nat): nat { FIRST_PORT + k % PORTS }

  /** Local ports stay in the dynamic range (section 6 of RFC 6335), and two openings share one
      exactly when their distance is a multiple of 16384. */
  lemma PortsDiffer(j: nat, k: nat)
    ensures 49_152 <= PortAt(k) <= 65_535
    ensures PortAt(j) == PortAt(k) <==> (j - k) % PORTS == 0
    ensures 0 < k - j < PORTS ==> PortAt(j) != PortAt(k)
  {
    assert j == PORTS * (j / PORTS) + j % PORTS && k == PORTS * (k / PORTS) + k % PORTS;
    var q := j / PORTS - k / PORTS;
    assert j - k == PORTS * q + (j % PORTS - k % PORTS);
  }

  // ---------------------------------------------------------------------------------------
  // What the polls show
  // ---------------------------------------------------------------------------------------

  /** One iteration of `http`: the socket state, the answer to a send, the receives made until
      nothing is left, and whether more can come. */
  datatype HttpPoll = HttpPoll(closed: bool, maySend: bool, send: Result<nat, string>,
                               receives: seq<Result<seq<Octet>, string>>, mayReceive: bool)

  datatype TcpState = Established | Closed | Opening

  /** One ICMP receive of `ping`. */
  datatype Icmp =
    | Broken(detail: string)
    | Malformed
    | OtherMessage
    | EchoReply(source: Ipv4, ident: nat, sequence: nat)

  predicate Matches(p: Icmp, target: Ipv4) {
    p == EchoReply(target, ICMP_IDENT, ICMP_SEQUENCE)
  }

  /** The poll shows the awaited reply, with no receive error before it. */
  predicate HasReply(packets: seq<Icmp>, target: Ipv4) {
    exists i :: 0 <= i < |packets| && packets[i] == EchoReply(target, 0x574b, 1)
                && forall j :: 0 <= j < i ==> !packets[j].Broken?
  }

  /** The poll shows neither the awaited reply nor a receive error. */
  predicate Silent(packets: seq<Icmp>, target: Ipv4) {
    forall i :: 0 <= i < |packets| ==> !packets[i].Broken? && packets[i] != EchoReply(target, 0x574b, 1)
  }

  /** Its first receive error is this one, and the awaited reply does not come before it. */
  predicate BreaksFirst(packets: seq<Icmp>, target: Ipv4, d: string) {
    exists i :: 0 <= i < |packets| && packets[i] == Broken(d) && Silent(packets[..i], target)
  }

  datatype Verdict = Nothing | Replied | Failed(detail: string)

  /** What the receive loop of `ping` concludes from the packets of one poll. */
  function Scan(packets: seq<Icmp>, target: Ipv4): Verdict {
    if packets == [] then Nothing
    else if packets[0].Broken? then Failed(packets[0].detail)
    else if Matches(packets[0], target) then Replied
    else Scan(packets[1..], target)
  }

  /** It is a reply exactly when a matching packet comes before any receive error. */
  lemma {:induction false} ScanFindsReply(packets: seq<Icmp>, target: Ipv4)
    ensures Scan(packets, target).Replied? <==> HasReply(packets, target)
    ensures Scan(packets, target).Nothing? <==> Silent(packets, target)
    ensures forall d :: Scan(packets, target) == Failed(d) <==> BreaksFirst(packets, target, d)
  {
    if packets != [] {
      var first, rest := packets[0], packets[1..];
      ScanFindsReply(rest, target);
      assert packets == [first] + rest;
      hide Scan, HasReply, Silent, BreaksFirst;
      HasReplyCons(first, rest, target);
      SilentCons(first, rest, target);
      forall d
        ensures BreaksFirst(packets, target, d)
           <==> first == Broken(d) || (!first.Broken? && !Matches(first, target) && BreaksFirst(rest, target, d))
      {
        BreaksFirstCons(first, rest, target, d);
      }
      ScanCons(first, rest, target);
    }
  }

  lemma ScanCons(first: Icmp, rest: seq<Icmp>, target: Ipv4)
    ensures Scan([first] + rest, target)
         == if first.Broken? then Failed(first.detail) else if Matches(first, target) then Replied else Scan(rest, target)
  {
    assert ([first] + rest)[1..] == rest;
  }

  lemma SilentCons(first: Icmp, rest: seq<Icmp>, target: Ipv4)
    ensures Silent([first] + rest, target) <==> !first.Broken? && !Matches(first, target) && Silent(rest, target)
  {
    var packets := [first] + rest;
    assert packets[0] == first;
    assert forall i :: 0 <= i < |rest| ==> packets[i + 1] == rest[i];
  }

  lemma HasReplyCons(first: Icmp, rest: seq<Icmp>, target: Ipv4)
    ensures HasReply([first] + rest, target) <==> !first.Broken? && (Matches(first, target) || HasReply(rest, target))
  {
    var packets := [first] + rest;
    assert packets[0] == first && packets[1..] == rest;
    assert HasReply(packets, target) ==> !first.Broken? && (Matches(first, target) || HasReply(rest, target)) by {
      if i :| 0 <= i < |packets| && packets[i] == EchoReply(target, 0x574b, 1) && forall j :: 0 <= j < i ==> !packets[j].Broken? {
        if i > 0 {
          assert rest[i - 1] == packets[i];
          assert forall j :: 0 <= j < i - 1 ==> rest[j] == packets[j + 1];
        }
      }
    }
    if !first.Broken? && HasReply(rest, target) {
      HasReplyAfter(first, rest, target);
    }
  }

  lemma HasReplyAfter(first: Icmp, rest: seq<Icmp>, target: Ipv4)
    requires !first.Broken? && HasReply(rest, target)
    ensures HasReply([first] + rest, target)
  {
    var packets := [first] + rest;
    var i :| 0 <= i < |rest| && rest[i] == EchoReply(target, 0x574b, 1) && forall j :: 0 <= j < i ==> !rest[j].Broken?;
    assert packets[i + 1] == rest[i];
    assert forall j :: 0 < j < i + 1 ==> packets[j] == rest[j - 1];
  }

  lemma BreaksFirstCons(first: Icmp, rest: seq<Icmp>, target: Ipv4, d: string)
    ensures BreaksFirst([first] + rest, target, d)
       <==> first == Broken(d) || (!first.Broken? && !Matches(first, target) && BreaksFirst(rest, target, d))
  {
    hide Silent;
    var packets := [first] + rest;
    if i :| 0 <= i < |packets| && packets[i] == Broken(d) && Silent(packets[..i], target) {
      if i > 0 {
        assert rest[i - 1] == packets[i] && packets[..i] == [first] + rest[..i - 1];
        SilentCons(first, rest[..i - 1], target);
      }
    }
    if first == Broken(d) {
      assert packets[0] == Broken(d) && packets[..0] == [];
      SilentNone(target);
    }
    if !first.Broken? && !Matches(first, target) && BreaksFirst(rest, target, d) {
      var i :| 0 <= i < |rest| && rest[i] == Broken(d) && Silent(rest[..i], target);
      assert packets[i + 1] == Broken(d) && packets[..i + 1] == [first] + rest[..i];
      SilentCons(first, rest[..i], target);
    }
  }

  lemma SilentNone(target: Ipv4)
    ensures Silent([], target)
  {}

  /** How a ping that slept `n` times ended. */
  ghost predicate PingEnds(target: Ipv4, bind: Result<(), string>, send: Result<(), string>, timeout: nat,
                           poll: nat -> seq<Icmp>, r: Result<bool, NetError>, n: nat)
  {
    if bind.Failure? then n == 0 && r == Failure(BindFailed(bind.error))
    else if send.Failure? then n == 0 && r == Failure(SendFailed(send.error))
    else
      && Slept(n, timeout) && (forall k: nat | k < n :: Silent(poll(k), target))
      && (r == Success(true) <==> HasReply(poll(n), target))
      && (r == Success(false) <==> Silent(poll(n), target))
      && (forall d :: r == Failure(ReceiveFailed(d)) <==> BreaksFirst(poll(n), target, d))
      && (r == Success(false) ==> n * POLL_INTERVAL >= timeout)
  }

  function Gathered(receives: seq<Result<seq<Octet>, string>>): seq<Octet> {
    if receives == [] then []
    else Gathered(receives[..|receives| - 1])
         + match receives[|receives| - 1] case Success(bytes) => bytes case Failure(_) => []
  }

  predicate AllReceived(receives: seq<Result<seq<Octet>, string>>) {
    forall i :: 0 <= i < |receives| ==> receives[i].Success?
  }

  /** Everything received in the first `n` polls. */
  function Body(poll: nat -> HttpPoll, n: nat): seq<Octet> {
    if n == 0 then [] else Body(poll, n - 1) + Gathered(poll(n - 1).receives)
  }

  /** No byte is lost, doubled or moved: gathering is a homomorphism. */
  lemma {:induction false} GatheredConcat(xs: seq<Result<seq<Octet>, string>>, ys: seq<Result<seq<Octet>, string>>)
    ensures Gathered(xs + ys) == Gathered(xs) + Gathered(ys)
    ensures forall bytes :: Gathered([Success(bytes)]) == bytes
  {
    forall bytes
      ensures Gathered([Success(bytes)]) == bytes
    {
      var one: Result<seq<Octet>, string> := Success(bytes);
      assert [one][..0] == [];
    }
    if ys == [] {
      assert xs + ys == xs;
    } else {
      GatheredConcat(xs, ys[..|ys| - 1]);
      assert (xs + ys)[..|xs + ys| - 1] == xs + ys[..|ys| - 1];
    }
  }

  function AllReceives(poll: nat -> HttpPoll, n: nat): seq<Result<seq<Octet>, string>> {
    if n == 0 then [] else AllReceives(poll, n - 1) + poll(n - 1).receives
  }

  /** The body gathers the receives of all polls in order, and only grows. */
  lemma {:induction false} BodyGathers(poll: nat -> HttpPoll, m: nat, n: nat)
    requires m <= n
    ensures Body(poll, n) == Gathered(AllReceives(poll, n)) && Body(poll, m) <= Body(poll, n)
    decreases n
  {
    if n > 0 {
      BodyGathers(poll, if m == n then n - 1 else m, n - 1);
      GatheredConcat(AllReceives(poll, n - 1), poll(n - 1).receives);
    }
  }

  /** The request was sent, whole, at poll `k` and not before. */
  ghost predicate SentAt(poll: nat -> HttpPoll, length: nat, k: nat) {
    && poll(k).maySend && poll(k).send == Success(length)
    && forall j: nat | j < k :: !poll(j).maySend
  }

  /** The request was sent within the first `n` polls. */
  ghost predicate SentWithin(poll: nat -> HttpPoll, length: nat, n: nat) {
    exists k: nat :: k < n && SentAt(poll, length, k)
  }

  /** Poll `n` shows a receive error, or an answer to the first send that is not the whole length. */
  ghost predicate BreaksAt(poll: nat -> HttpPoll, length: nat, n: nat) {
    || !AllReceived(poll(n).receives)
    || (!SentWithin(poll, length, n) && poll(n).maySend && poll(n).send != Success(length))
  }

  lemma NothingSent(poll: nat -> HttpPoll, length: nat)
    ensures !SentWithin(poll, length, 0)
  {}

  lemma NextSentWithin(poll: nat -> HttpPoll, length: nat, n: nat, sent: bool, sent': bool)
    requires sent == SentWithin(poll, length, n)
    requires !sent ==> forall j: nat | j < n :: !poll(j).maySend
    requires sent' == (sent || poll(n).maySend) && (!sent && poll(n).maySend ==> poll(n).send == Success(length))
    ensures sent' == SentWithin(poll, length, n + 1)
    ensures !sent' ==> forall j: nat | j < n + 1 :: !poll(j).maySend
  {
    if sent {
      var k: nat :| k < n && SentAt(poll, length, k);
    } else if sent' {
      assert SentAt(poll, length, n);
    }
  }

  /** Poll `n` shows the socket closed, the request not being sent before. */
  ghost predicate RefusedAt(poll: nat -> HttpPoll, length: nat, n: nat) {
    poll(n).closed && !SentWithin(poll, length, n)
  }

  /** After poll `n` the request is sent and nothing more can come. */
  ghost predicate CompleteAt(poll: nat -> HttpPoll, length: nat, n: nat) {
    SentWithin(poll, length, n + 1) && !poll(n).mayReceive
  }

  ghost predicate FirstSendIs(poll: nat -> HttpPoll, length: nat, n: nat, send: Result<nat, string>) {
    !SentWithin(poll, length, n) && poll(n).maySend && poll(n).send == send
  }

  /** Its first receive error is this one. */
  predicate ReceivesFail(receives: seq<Result<seq<Octet>, string>>, d: string) {
    exists i :: 0 <= i < |receives| && receives[i] == Failure(d) && AllReceived(receives[..i])
  }

  /** How a request that slept `n` times ended. At its last poll an error of send or receive comes
      first, then the refused connection, the complete response, and the timeout. */
  ghost predicate HttpEnds(connect: Result<(), string>, length: nat, timeout: nat, poll: nat -> HttpPoll,
                           r: Result<seq<Octet>, NetError>, n: nat)
  {
    if connect.Failure? then n == 0 && r == Failure(SetupFailed(connect.error))
    else
      && Slept(n, timeout)
      && (forall k: nat | k < n ::
            !BreaksAt(poll, length, k) && !RefusedAt(poll, length, k) && !CompleteAt(poll, length, k))
      && (if BreaksAt(poll, length, n) then
            && r.Failure?
            && match r.error
               case SendFailed(d) => FirstSendIs(poll, length, n, Failure(d))
               case DidNotFit => exists m: nat :: m != length && FirstSendIs(poll, length, n, Success(m))
               case ReceiveFailed(d) =>
                 && ReceivesFail(poll(n).receives, d)
                 && (SentWithin(poll, length, n) || !poll(n).maySend || poll(n).send == Success(length))
               case _ => false
          else if RefusedAt(poll, length, n) then r == Failure(ConnectionFailed)
          else if CompleteAt(poll, length, n) then r == Success(Body(poll, n + 1))
          else r == Failure(Timeout) && n * POLL_INTERVAL >= timeout)
  }

  /** Success means that the whole request was accepted at the first opportunity and nothing more
      can come; a closed socket fails the request while it has not been sent, and only then. */
  lemma HttpMeans(length: nat, timeout: nat, poll: nat -> HttpPoll, r: Result<seq<Octet>, NetError>, n: nat)
    requires HttpEnds(Success(()), length, timeout, poll, r, n)
    ensures r.Success? ==> exists k: nat :: k <= n && poll(k).maySend && poll(k).send == Success(length)
                                            && forall j: nat | j < k :: !poll(j).maySend
    ensures r.Success? ==> !poll(n).mayReceive && forall k: nat | k <= n :: AllReceived(poll(k).receives)
    ensures r.Success? ==> r.value == Gathered(AllReceives(poll, n + 1))
    ensures r == Failure(ConnectionFailed) ==> poll(n).closed && forall j: nat | j < n :: !poll(j).maySend
    ensures poll(n).closed && (forall j: nat | j <= n :: !poll(j).maySend) && AllReceived(poll(n).receives) ==>
              r == Failure(ConnectionFailed)
    ensures r == Failure(Timeout) ==> n * POLL_INTERVAL >= timeout
  {
    hide Body, Slept, ReceivesFail, AllReceived, Gathered, AllReceives;
    BodyGathers(poll, n, n + 1);
    if r.Success? {
      var k: nat :| k < n + 1 && SentAt(poll, length, k);
      forall k: nat | k <= n
        ensures AllReceived(poll(k).receives)
      {
        assert !BreaksAt(poll, length, k);
      }
    }
    if r == Failure(ConnectionFailed) {
      FirstSendDecides(length, poll, n);
    }
  }

  /** A request that has neither been sent nor failed has not been tried. */
  lemma {:induction false} FirstSendDecides(length: nat, poll: nat -> HttpPoll, n: nat)
    requires forall k: nat | k < n :: !BreaksAt(poll, length, k)
    requires !SentWithin(poll, length, n)
    ensures forall j: nat | j < n :: !poll(j).maySend
  {
    if n > 0 {
      assert forall k: nat | SentAt(poll, length, k) :: k >= n;
      FirstSendDecides(length, poll, n - 1);
      assert !BreaksAt(poll, length, n - 1);
      if poll(n - 1).maySend {
        assert SentAt(poll, length, n - 1);
      }
    }
  }

  /** `n` sleeps were needed and no more: before each, the deadline had not passed. */
  predicate Slept(n: nat, timeout: nat) {
    n > 0 ==> (n - 1) * POLL_INTERVAL < timeout
  }

  /** A loop that sleeps only before its deadline ends less than one sleep after it. */
  lemma SleptBound(n: nat, timeout: nat)
    requires Slept(n, timeout)
    ensures n * POLL_INTERVAL < timeout + POLL_INTERVAL
    ensures timeout % POLL_INTERVAL == 0 ==> n * POLL_INTERVAL <= timeout
  {
    if n > 0 && timeout % POLL_INTERVAL == 0 {
      var q := timeout / POLL_INTERVAL;
      assert timeout == q * POLL_INTERVAL;
      assert n - 1 < q;
    }
  }

  // ---------------------------------------------------------------------------------------
  // The object
  // ---------------------------------------------------------------------------------------

  /** How a TCP probe that slept `n` times ended. */
  ghost predicate ProbeEnds(connect: Result<(), string>, timeout: nat, poll: nat -> TcpState, r: Result<bool, NetError>, n: nat) {
    if connect.Failure? then n == 0 && r == Failure(SetupFailed(connect.error))
    else
      && Slept(n, timeout) && (forall k: nat | k < n :: poll(k) == Opening)
      && (r == Success(true) <==> poll(n) == Established)
      && (r == Success(false) <==> poll(n) == Closed || (poll(n) == Opening && n * POLL_INTERVAL >= timeout))
      && (poll(n) == Opening ==> r == Success(false))
  }

  class SmolEngine {
    var sockets: set<nat>
    var nextPort: nat
    var clock: nat
    ghost var ports: seq<nat>  // the local ports given out so far

    ghost predicate Valid()
      reads this
    {
      && nextPort == PortAt(|ports|)
      && forall k :: 0 <= k < |ports| ==> ports[k] == PortAt(k)
    }

    constructor (now: nat)
      ensures Valid() && sockets == {} && nextPort == 49_152 && ports == [] && clock == now
    {
      sockets, nextPort, clock, ports := {}, FIRST_PORT, now, [];
    }

    method Sleep()
      modifies this`clock
      ensures clock == old(clock) + 5_000_000
    {
      clock := clock + POLL_INTERVAL;
    }

    // `slot` is the free handle the socket set chooses; `connect` is the answer of its connect.
    method OpenSocket(slot: nat, connect: Result<(), string>) returns (r: Result<nat, NetError>)
      requires Valid() && slot !in sockets
      modifies this`sockets, this`nextPort, this`ports
      ensures Valid() && ports == old(ports) + [old(nextPort)]
      ensures nextPort == if old(nextPort) == 65_535 then 49_152 else old(nextPort) + 1
      ensures r == if connect.Success? then Success(slot) else Failure(SetupFailed(connect.error))
      ensures sockets == if connect.Success? then old(sockets) + {slot} else old(sockets)
    {
      sockets := sockets + {slot};
      var localPort := nextPort;
      nextPort := if nextPort == U16_MAX then FIRST_PORT else nextPort + 1;
      ports := ports + [localPort];
      if connect.Failure? {
        sockets := sockets - {slot};
        return Failure(SetupFailed(connect.error));
      }
      r := Success(slot);
    }

    // Send the whole request at the first opportunity.
    method SendOnce(now: HttpPoll, sent: bool, length: nat) returns (r: Result<bool, NetError>)
      ensures r == if sent || !now.maySend then Success(sent)
                   else if now.send.Failure? then Failure(SendFailed(now.send.error))
                   else if now.send.value != length then Failure(DidNotFit)
                   else Success(true)
    {
      if sent || !now.maySend {
        return Success(sent);
      }
      if now.send.Failure? {
        return Failure(SendFailed(now.send.error));
      }
      if now.send.value != length {
        return Failure(DidNotFit);
      }
      r := Success(true);
    }

    // The inner receive loop of `http`.
    method Receive(receives: seq<Result<seq<Octet>, string>>, response: seq<Octet>)
      returns (r: Result<seq<Octet>, NetError>)
      ensures r.Success? <==> AllReceived(receives)
      ensures r.Success? ==> r.value == response + Gathered(receives)
      ensures r.Failure? ==> r.error.ReceiveFailed? && ReceivesFail(receives, r.error.detail)
    {
      var all := response;
      for i := 0 to |receives|
        invariant AllReceived(receives[..i]) && all == response + Gathered(receives[..i])
      {
        if receives[i].Failure? {
          return Failure(ReceiveFailed(receives[i].error));
        }
        assert receives[..i + 1][..i] == receives[..i];
        all := all + receives[i].value;
      }
      assert receives[..|receives|] == receives;
      r := Success(all);
    }

    // `n` is the number of sleeps; the loop made n + 1 polls.
    method Http(slot: nat, connect: Result<(), string>, length: nat, timeout: nat, poll: nat -> HttpPoll)
      returns (r: Result<seq<Octet>, NetError>, n: nat)
      requires Valid() && slot !in sockets
      modifies this
      ensures Valid() && ports == old(ports) + [old(nextPort)]
      ensures clock == old(clock) + n * POLL_INTERVAL
      ensures sockets == old(sockets) + if r.Failure? && (r.error.SendFailed? || r.error.DidNotFit? || r.error.ReceiveFailed?)
                                        then {slot} else {}
      ensures HttpEnds(connect, length, timeout, poll, r, n)
      ensures connect.Failure? ==> r == Failure(SetupFailed(connect.error))
    {
      NothingSent(poll, length);
      hide SentWithin, SentAt, Gathered, PortAt, ReceivesFail;
      n := 0;
      var handle := OpenSocket(slot, connect);
      if handle.Failure? {
        return Failure(handle.error), 0;
      }
      var deadline := clock + timeout;
      var sent := false;
      var response := [];
      while true
        invariant Valid() && ports == old(ports) + [old(nextPort)] && sockets == old(sockets) + {slot}
        invariant clock == old(clock) + n * POLL_INTERVAL && Slept(n, timeout) && deadline == old(clock) + timeout
        invariant sent == SentWithin(poll, length, n)
        invariant !sent ==> forall j: nat | j < n :: !poll(j).maySend
        invariant response == Body(poll, n)
        invariant forall k: nat | k < n ::
                    !BreaksAt(poll, length, k) && !RefusedAt(poll, length, k) && !CompleteAt(poll, length, k)
        decreases deadline - clock
      {
        var now := poll(n);
        var failed := now.closed && !sent;
        var sending := SendOnce(now, sent, length);
        if sending.Failure? {
          return Failure(sending.error), n;
        }
        NextSentWithin(poll, length, n, sent, sending.value);
        sent := sending.value;
        var received := Receive(now.receives, response);
        if received.Failure? {
          return Failure(received.error), n;
        }
        response := received.value;
        if failed {
          sockets := sockets - {slot};
          return Failure(ConnectionFailed), n;
        }
        if sent && !now.mayReceive {
          sockets := sockets - {slot};
          return Success(response), n;
        }
        if clock >= deadline {
          sockets := sockets - {slot};
          return Failure(Timeout), n;
        }
        Sleep();
        n := n + 1;
      }
    }

    method Probe(slot: nat, connect: Result<(), string>, timeout: nat, poll: nat -> TcpState)
      returns (r: Result<bool, NetError>, n: nat)
      requires Valid() && slot !in sockets
      modifies this
      ensures Valid() && ports == old(ports) + [old(nextPort)] && sockets == old(sockets)
      ensures clock == old(clock) + n * POLL_INTERVAL
      ensures ProbeEnds(connect, timeout, poll, r, n)
      ensures connect.Success? ==> r == Success(poll(n).Established?) && forall k: nat | k < n :: poll(k).Opening?
    {
      n := 0;
      var handle := OpenSocket(slot, connect);
      if handle.Failure? {
        return Failure(handle.error), 0;
      }
      var deadline := clock + timeout;
      while true
        invariant Valid() && ports == old(ports) + [old(nextPort)] && sockets == old(sockets) + {slot}
        invariant clock == old(clock) + n * POLL_INTERVAL && Slept(n, timeout) && deadline == old(clock) + timeout
        invariant forall k: nat | k < n :: poll(k).Opening?
        decreases deadline - clock
      {
        var state := poll(n);
        if state.Established? {
          sockets := sockets - {slot};
          return Success(true), n;
        }
        if state.Closed? {
          sockets := sockets - {slot};
          return Success(false), n;
        }
        if clock >= deadline {
          sockets := sockets - {slot};
          return Success(false), n;
        }
        Sleep();
        n := n + 1;
      }
    }

    // The inner receive loop of `ping`.
    method ReceiveIcmp(packets: seq<Icmp>, target: Ipv4) returns (verdict: Verdict)
      ensures verdict == Scan(packets, target)
    {
      for i := 0 to |packets|
        invariant Scan(packets[i..], target) == Scan(packets, target)
      {
        if packets[i].Broken? {
          return Failed(packets[i].detail);
        }
        if Matches(packets[i], target) {
          return Replied;
        }
        assert packets[i..][1..] == packets[i + 1..];
      }
      verdict := Nothing;
    }

    // A socket that cannot be bound or cannot queue the request is never added to the set.
    method Ping(slot: nat, target: Ipv4, bind: Result<(), string>, send: Result<(), string>, timeout: nat,
                poll: nat -> seq<Icmp>)
      returns (r: Result<bool, NetError>, n: nat)
      requires Valid() && slot !in sockets
      modifies this
      ensures Valid() && ports == old(ports)
      ensures sockets == old(sockets) + if r.Failure? && r.error.ReceiveFailed? then {slot} else {}
      ensures clock == old(clock) + n * POLL_INTERVAL
      ensures PingEnds(target, bind, send, timeout, poll, r, n)
      ensures bind.Success? && send.Success? ==>
                && (r == Success(true) <==>
                    exists i :: 0 <= i < |poll(n)| && poll(n)[i] == EchoReply(target, 0x574b, 1)
                                && forall j :: 0 <= j < i ==> !poll(n)[j].Broken?)
                && (r == Success(false) <==>
                    forall k: nat, i | k <= n && 0 <= i < |poll(k)| ::
                      !poll(k)[i].Broken? && poll(k)[i] != EchoReply(target, 0x574b, 1))
      ensures (r == Success(false) ==> n * POLL_INTERVAL >= timeout) && (n > 0 ==> (n - 1) * POLL_INTERVAL < timeout)
    {
      hide PortAt, Scan;
      n := 0;
      if bind.Failure? {
        return Failure(BindFailed(bind.error)), 0;
      }
      if send.Failure? {
        return Failure(SendFailed(send.error)), 0;
      }
      sockets := sockets + {slot};
      var deadline := clock + timeout;
      while true
        invariant Valid() && ports == old(ports) && sockets == old(sockets) + {slot}
        invariant clock == old(clock) + n * POLL_INTERVAL && Slept(n, timeout) && deadline == old(clock) + timeout
        invariant forall k: nat | k < n :: Silent(poll(k), target)
        decreases deadline - clock
      {
        var verdict := ReceiveIcmp(poll(n), target);
        ScanFindsReply(poll(n), target);
        match verdict
        case Replied =>
          sockets := sockets - {slot};
          return Success(true), n;
        case Failed(d) =>
          return Failure(ReceiveFailed(d)), n;
        case Nothing =>
        if clock >= deadline {
          sockets := sockets - {slot};
          return Success(false), n;
        }
        Sleep();
        n := n + 1;
      }
    }
  }

  // ---------------------------------------------------------------------------------------
  // The command loop
  // ---------------------------------------------------------------------------------------

  /** A command, with what its sockets and polls will show. */
  datatype Command =
    | HttpCommand(connect: Result<(), string>, length: nat, timeout: nat, http: nat -> HttpPoll)
    | ProbeCommand(connect: Result<(), string>, timeout: nat, tcp: nat -> TcpState)
    | PingCommand(target: Ipv4, bind: Result<(), string>, send: Result<(), string>, timeout: nat, icmp: nat -> seq<Icmp>)

  /** How a command ended: the handle it used and its result. */
  datatype Ending =
    | HttpEnding(slot: nat, body: Result<seq<Octet>, NetError>)
    | ProbeEnding(slot: nat, reachable: Result<bool, NetError>)
    | PingEnding(slot: nat, answered: Result<bool, NetError>)

  /** It returned one of the errors that leave the socket behind. */
  predicate Leaks(e: Ending) {
    match e
    case HttpEnding(_, r) => r.Failure? && LeaksHttp(r.error)
    case ProbeEnding(_, _) => false
    case PingEnding(_, r) => r.Failure? && LeaksPing(r.error)
  }

  /** The ending is one that the command can have. */
  ghost predicate Ends(c: Command, e: Ending) {
    match c
    case HttpCommand(connect, length, timeout, poll) =>
      e.HttpEnding? && exists n: nat :: HttpEnds(connect, length, timeout, poll, e.body, n)
    case ProbeCommand(connect, timeout, poll) =>
      e.ProbeEnding? && exists n: nat :: ProbeEnds(connect, timeout, poll, e.reachable, n)
    case PingCommand(target, bind, send, timeout, poll) =>
      e.PingEnding? && exists n: nat :: PingEnds(target, bind, send, timeout, poll, e.answered, n)
  }

  /** The handles left behind. */
  function Leaked(endings: seq<Ending>): set<nat> {
    if endings == [] then {}
    else Leaked(endings[..|endings| - 1])
         + if Leaks(endings[|endings| - 1]) then {endings[|endings| - 1].slot} else {}
  }

  /** The ports that the commands take. */
  function Openings(commands: seq<Command>): nat {
    if commands == [] then 0
    else Openings(commands[..|commands| - 1]) + if commands[|commands| - 1].PingCommand? then 0 else 1
  }

  lemma {:induction false} LeakedHas(endings: seq<Ending>, slot: nat)
    ensures slot in Leaked(endings) <==> exists e <- endings :: Leaks(e) && e.slot == slot
  {
    if endings != [] {
      var init, last := endings[..|endings| - 1], endings[|endings| - 1];
      LeakedHas(init, slot);
      assert endings == init + [last];
    }
  }

  /** The handle of a free place in the socket set. */
  method FreeSlot(sockets: set<nat>) returns (slot: nat)
    ensures slot !in sockets
  {
    slot := 0;
    var rest := sockets;
    while rest != {}
      invariant rest <= sockets && forall h :: h in sockets && h !in rest ==> h < slot
      decreases |rest|
    {
      var h :| h in rest;
      slot := Max(slot, h + 1);
      rest := rest - {h};
    }
  }

  /** One iteration of the command loop. */
  method Serve(engine: SmolEngine, command: Command) returns (ending: Ending)
    requires engine.Valid()
    modifies engine
    ensures engine.Valid() && |engine.ports| == |old(engine.ports)| + Openings([command])
    ensures Ends(command, ending) && ending.slot !in old(engine.sockets)
    ensures engine.sockets == old(engine.sockets) + Leaked([ending])
  {
    hide PortAt, HttpEnds, ProbeEnds, PingEnds;
    var slot := FreeSlot(engine.sockets);
    OneOpening(command);
    match command {
    case HttpCommand(connect, length, timeout, poll) =>
      var r, n := engine.Http(slot, connect, length, timeout, poll);
      ending := HttpEnding(slot, r);
    case ProbeCommand(connect, timeout, poll) =>
      var r, n := engine.Probe(slot, connect, timeout, poll);
      ending := ProbeEnding(slot, r);
    case PingCommand(target, bind, send, timeout, poll) =>
      var r, n := engine.Ping(slot, target, bind, send, timeout, poll);
      ending := PingEnding(slot, r);
    }
    OneEnding(ending);
  }

  lemma OneEnding(e: Ending)
    ensures Leaked([e]) == if Leaks(e) then {e.slot} else {}
  {
    assert [e][..0] == [];
  }

  lemma OneOpening(c: Command)
    ensures Openings([c]) == if c.PingCommand? then 0 else 1
  {
    assert [c][..0] == [];
  }

  /** `run`: the commands in order. After any of them the socket set holds exactly the handles that
      were left behind, no handle is used again while it is in the set, and one port has been given
      out for each command but the pings. */
  method Run(engine: SmolEngine, commands: seq<Command>) returns (endings: seq<Ending>)
    requires engine.Valid() && engine.sockets == {} && engine.ports == []
    modifies engine
    ensures engine.Valid() && |engine.ports| == Openings(commands)
    ensures |endings| == |commands| && engine.sockets == Leaked(endings)
    ensures forall i :: 0 <= i < |commands| ==> Ends(commands[i], endings[i])
    ensures forall i, j :: 0 <= i < j < |endings| && Leaks(endings[i]) ==> endings[i].slot != endings[j].slot
  {
    hide Ends;
    endings := [];
    for i := 0 to |commands|
      invariant engine.Valid() && |engine.ports| == Openings(commands[..i])
      invariant |endings| == i && engine.sockets == Leaked(endings)
      invariant forall j :: 0 <= j < i ==> Ends(commands[j], endings[j])
      invariant forall j, k :: 0 <= j < k < |endings| && Leaks(endings[j]) ==> endings[j].slot != endings[k].slot
    {
      var ending := Serve(engine, commands[i]);
      OneEnding(ending);
      OneOpening(commands[i]);
      assert commands[..i + 1][..i] == commands[..i];
      assert (endings + [ending])[..i] == endings;
      forall j | 0 <= j < |endings| && Leaks(endings[j])
        ensures endings[j].slot != ending.slot
      {
        LeakedHas(endings, endings[j].slot);
      }
      endings := endings + [ending];
    }
    assert commands[..|commands|] == commands;
  }

  /** The timeout of a readiness probe. */
  const PROBE_TIMEOUT: nat := 750 * MILLISECOND

  /** A readiness probe lasts at most its timeout, and so less than the 755 ms that one late sleep
      would allow. */
  lemma ReadinessProbeTime(n: nat)
    requires Slept(n, PROBE_TIMEOUT)
    ensures n * POLL_INTERVAL <= PROBE_TIMEOUT
  {
    SleptBound(n, PROBE_TIMEOUT);
  }
}
