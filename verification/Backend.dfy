/** The WireGuard backend as the owner of tunnels: every tunnel it ever opened is the one it
    holds, was shut down, or was dropped. */
module Backend {
  import opened Basics

  /** Where a tunnel is: with the backend; shut down and joined; or dropped, which stops its
      tasks later. */
  datatype Fate = Held | ShutDown | Dropped

  datatype ConnectError = TunnelFailed(detail: string) | ProbeFailed(detail: string) | NotReachable

  class WakerWireGuardBackend {
    var created: nat          // how many tunnels have been opened; they are numbered in order
    var tunnel: Option<nat>
    ghost var fates: seq<Fate>

    /** At most one tunnel is held, and it is the one the field names. */
    ghost predicate Valid()
      reads this
    {
      && created == |fates| && (tunnel.Some? ==> tunnel.value < |fates|)
      && forall i :: 0 <= i < |fates| ==> (fates[i].Held? <==> tunnel == Some(i))
    }

    constructor ()
      ensures Valid() && created == 0 && tunnel == None
    {
      created, tunnel, fates := 0, None, [];
    }

    // `build` is the result of opening the tunnel, `probe` that of probing the FRITZ!Box.
    method Connect(build: Result<(), string>, probe: Result<bool, string>) returns (r: Result<(), ConnectError>)
      requires Valid()
      modifies this
      ensures Valid() && created == old(created) + if build.Success? then 1 else 0
      ensures r == if build.Failure? then Failure(TunnelFailed(build.error))
                   else if probe.Failure? then Failure(ProbeFailed(probe.error))
                   else if !probe.value then Failure(NotReachable)
                   else Success(())
      ensures tunnel == if r.Success? then Some(old(created)) else old(tunnel)
      ensures build.Success? && r.Failure? ==> fates == old(fates) + [if probe.Success? then ShutDown else Dropped]
      ensures r.Success? ==>
                |fates| == |old(fates)| + 1 && fates[|old(fates)|].Held?
                && forall i :: 0 <= i < |old(fates)| ==> fates[i] == if old(fates)[i].Held? then Dropped else old(fates)[i]
    {
      if build.Failure? {
        return Failure(TunnelFailed(build.error));
      }
      var mine := created;
      created := created + 1;
      if probe.Failure? {
        fates := fates + [Dropped];
        return Failure(ProbeFailed(probe.error));
      }
      if !probe.value {
        fates := fates + [ShutDown];
        return Failure(NotReachable);
      }
      // Assigning the field drops the tunnel it held.
      fates := seq(|fates|, i requires 0 <= i < |fates| reads this => if fates[i].Held? then Dropped else fates[i]) + [Held];
      tunnel := Some(mine);
      r := Success(());
    }

    method Disconnect()
      requires Valid()
      modifies this
      ensures Valid() && created == old(created) && tunnel == None
      ensures |fates| == |old(fates)|
      ensures forall i :: 0 <= i < |fates| ==> fates[i] == if old(fates)[i].Held? then ShutDown else old(fates)[i]
      ensures forall i :: 0 <= i < |fates| ==> !fates[i].Held?
    {
      if tunnel.Some? {
        fates := fates[tunnel.value := ShutDown];
        tunnel := None;
      }
    }

    // The tunnel calls of a wake attempt: connect, and disconnect whatever has happened.
    method Attempt(build: Result<(), string>, probe: Result<bool, string>) returns (r: Result<(), ConnectError>)
      requires Valid()
      modifies this
      ensures Valid() && tunnel == None
      ensures forall i :: 0 <= i < |fates| ==> !fates[i].Held?
      ensures build.Success? ==> |fates| == |old(fates)| + 1 && fates[|old(fates)|] == if probe.Failure? then Dropped else ShutDown
    {
      r := Connect(build, probe);
      Disconnect();
    }
  }
}
