/** The SSH master as the registry sees it (the `Ssh` trait of src/registry.rs):
    a process that holds local ports open. It may refuse any request; a refused
    request changes nothing, and a port that is bound cannot be bound again. */
module SshMasters {
  import opened Detect
  import opened RegistrySpec

  class SshMaster {
    /** Whether the process runs. */
    var alive: bool
    var live: Tunnels
    /** Which local ports a bind attempt would find free at this moment. */
    var free: Port -> bool
    var log: seq<SshCall>
    /** What `free` has been after each call. */
    ghost var looks: seq<Port -> bool>
    /** How often a master was started, and whether it came up. */
    ghost var starts: seq<bool>

    constructor (free: Port -> bool)
      ensures alive && live == map[] && log == [] && looks == [] && starts == []
    {
      alive, live, this.free, log, looks, starts := true, map[], free, [], [], [];
    }

    method Forward(port: Port, target: Endpoint) returns (ok: bool)
      modifies `live, `free, `log, `looks
      ensures ok ==> alive && port !in old(live) && live == old(live)[port := target]
      ensures !ok ==> live == old(live)
      ensures log == old(log) + [Open(port, target, ok)] && looks == old(looks) + [free]
    {
      ok := *;
      ok := ok && alive && port !in live;
      if ok {
        live := live[port := target];
      }
      log := log + [Open(port, target, ok)];
      free := *;
      looks := looks + [free];
    }

    method Cancel(port: Port, target: Endpoint) returns (ok: bool)
      modifies `live, `free, `log, `looks
      ensures live == if ok then RegistrySpec.Cancel(old(live), port, target) else old(live)
      ensures ok ==> alive
      ensures log == old(log) + [Close(port, target, ok)] && looks == old(looks) + [free]
    {
      ok := *;
      ok := ok && alive;
      if ok {
        live := RegistrySpec.Cancel(live, port, target);
      }
      log := log + [Close(port, target, ok)];
      free := *;
      looks := looks + [free];
    }

    /** The end of the process, wanted or not, is the end of its tunnels. */
    method Exit()
      modifies `alive, `live
      ensures !alive && live == map[]
    {
      alive, live := false, map[];
    }

    /** A fresh process without tunnels. */
    method Start() returns (ok: bool)
      requires !alive && live == map[]
      modifies `alive, `starts
      ensures alive == ok && starts == old(starts) + [ok]
    {
      ok := *;
      alive, starts := ok, starts + [ok];
    }
  }
}
