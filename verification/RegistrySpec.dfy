/** The forward registry (src/registry.rs), as a specification.

    `State` is what the registry stores together with the tunnels that are really
    open on the SSH master. Every operation is a function of the state, its
    arguments and the answers of the outside world: which local ports look free,
    whether an SSH call succeeds, the clock. A failed SSH call changes nothing, and
    a tunnel opens only on a local port that is not bound already. */
module RegistrySpec {
  import opened Wrappers
  import opened Detect
  import opened Model
  import Decimal

  const MAX_FORWARDS := 256
  const U64_MAX: nat := 0xffff_ffff_ffff_ffff

  datatype Forward = Forward(
    id: string,
    remotePort: Port,
    localPort: Port,
    remoteHost: string,
    paneId: string,
    process: string,
    detectedUrl: string,
    enabled: bool,
    automatic: bool,
    serverStartedAt: Option<nat>,
    processId: Option<nat>,
    tunnelOpenedAt: nat)

  datatype Endpoint = Endpoint(host: string, port: Port)

  type Forwards = map<string, Forward>
  type Tunnels = map<Port, Endpoint>

  datatype State = State(forwards: Forwards, next: nat, live: Tunnels)

  datatype Error =
    | Rejected(reason: Invalid)
    | LimitReached
    | NoLocalPort
    | ForwardFailed
    | CancelFailed
    | PortZero
    | PortUnavailable
    | RemapFailed(disabled: bool)
    | RecoveryCancelled
    | RestoreFailed
    | PausesUnreadable

  function Target(f: Forward): Endpoint { Endpoint(f.remoteHost, f.remotePort) }

  function ForwardId(n: nat): string { "fwd-" + Decimal.Print(n) }

  lemma ForwardIdInjective(m: nat, n: nat)
    requires ForwardId(m) == ForwardId(n)
    ensures m == n
  {
    assert ForwardId(m)[4..] == Decimal.Print(m) && ForwardId(n)[4..] == Decimal.Print(n);
    Decimal.PrintInjective(m, n);
  }

  /** `u64::saturating_add(1)`. */
  function Increment(n: nat): nat { if n < U64_MAX then n + 1 else U64_MAX }

  // ---------------------------------------------------------------------------
  // What is always true of the entries, and when they are truthful
  // ---------------------------------------------------------------------------

  ghost predicate WellFormedEntry(f: Forward) {
    && f.remotePort != 0 && f.localPort != 0
    && (f.remoteHost == "127.0.0.1" || f.remoteHost == "::1")
    && (!f.enabled ==> f.tunnelOpenedAt == 0)
  }

  ghost predicate Issued(id: string, next: nat) {
    exists n :: 1 <= n <= next && id == ForwardId(n)
  }

  ghost predicate DistinctTargets(fw: Forwards) {
    forall a, b :: a in fw && b in fw && a != b ==> Target(fw[a]) != Target(fw[b])
  }

  ghost predicate DistinctPorts(fw: Forwards) {
    forall a, b :: a in fw && b in fw && a != b && fw[a].enabled && fw[b].enabled ==>
      fw[a].localPort != fw[b].localPort
  }

  ghost predicate Named(fw: Forwards, next: nat) {
    forall id :: id in fw ==> fw[id].id == id && WellFormedEntry(fw[id]) && Issued(id, next)
  }

  ghost predicate Entries(fw: Forwards, next: nat) {
    && Named(fw, next)
    && DistinctTargets(fw)
    && DistinctPorts(fw)
    && |fw| <= MAX_FORWARDS && next <= U64_MAX
  }

  /** Every enabled entry has its tunnel open. */
  ghost predicate Backed(fw: Forwards, live: Tunnels) {
    forall id :: id in fw && fw[id].enabled ==>
      fw[id].localPort in live && live[fw[id].localPort] == Target(fw[id])
  }

  ghost predicate Claims(fw: Forwards, p: Port) {
    exists id :: id in fw && fw[id].enabled && fw[id].localPort == p
  }

  /** The open tunnels are exactly those of the enabled entries. */
  ghost predicate Truthful(fw: Forwards, live: Tunnels) {
    && Backed(fw, live)
    && forall p :: p in live ==> Claims(fw, p)
  }

  /** The open tunnels that belong to no enabled entry. */
  ghost function Unclaimed(fw: Forwards, live: Tunnels): Tunnels {
    map p | p in live && !Claims(fw, p) :: live[p]
  }

  ghost predicate Inv(s: State) {
    Entries(s.forwards, s.next) && Truthful(s.forwards, s.live)
  }

  const INITIAL := State(map[], 0, map[])

  /** A request to the SSH master, and whether it was granted. */
  datatype SshCall =
    | Open(port: Port, target: Endpoint, ok: bool)
    | Close(port: Port, target: Endpoint, ok: bool)

  // ---------------------------------------------------------------------------
  // SSH calls and port selection
  // ---------------------------------------------------------------------------

  /** A successful `cancel` closes the tunnel it names and nothing else. */
  function Cancel(live: Tunnels, p: Port, target: Endpoint): Tunnels {
    if p in live && live[p] == target then live - {p} else live
  }

  predicate Usable(fw: Forwards, excluding: Option<string>, free: Port -> bool, p: Port) {
    p != 0 && free(p) && forall id :: id in fw && Some(id) != excluding && fw[id].enabled ==> fw[id].localPort != p
  }

  /** `available_port`: the least usable port at or above `start`. */
  function FirstUsable(fw: Forwards, excluding: Option<string>, free: Port -> bool, start: Port): (r: Option<Port>)
    ensures r.Some? ==> start <= r.value && Usable(fw, excluding, free, r.value)
    ensures r.Some? ==> forall q: Port :: start <= q < r.value ==> !Usable(fw, excluding, free, q)
    ensures r.None? ==> forall q: Port :: start <= q ==> !Usable(fw, excluding, free, q)
    decreases 0xffff - start
  {
    if Usable(fw, excluding, free, start) then Some(start)
    else if start == 0xffff then None
    else FirstUsable(fw, excluding, free, start + 1)
  }

  // ---------------------------------------------------------------------------
  // Operations
  // ---------------------------------------------------------------------------

  function NormalizedHost(host: string): string {
    if host == "::1" || host == "[::1]" then "::1" else "127.0.0.1"
  }

  ghost predicate Holds(fw: Forwards, e: Endpoint, id: string) { id in fw && Target(fw[id]) == e }

  ghost predicate Held(fw: Forwards, e: Endpoint) { exists id :: Holds(fw, e, id) }

  /** The entry for an endpoint; there is at most one (`DistinctTargets`). */
  ghost function Holder(fw: Forwards, e: Endpoint): (id: string)
    requires Held(fw, e)
    ensures Holds(fw, e, id)
  {
    var id :| Holds(fw, e, id); id
  }

  /** An existing entry learns what a repeated request knows about its server. */
  function Enriched(f: Forward, r: ForwardRequest, now: nat): Forward {
    var restarted := r.processId.Some? && r.processId != f.processId;
    f.(serverStartedAt := if restarted || f.serverStartedAt.None? then r.serverStartedAt else f.serverStartedAt,
       processId := if restarted || f.processId.None? then r.processId else f.processId,
       tunnelOpenedAt := if f.enabled && f.tunnelOpenedAt == 0 then now else f.tunnelOpenedAt)
  }

  function NewForward(r: ForwardRequest, id: string, localPort: Port, enabled: bool, now: nat): Forward {
    Forward(id, r.remotePort, localPort, NormalizedHost(r.remoteHost), r.paneId, r.process, r.detectedUrl,
            enabled, r.automatic, r.serverStartedAt, r.processId, if enabled then now else 0)
  }

  function StartPort(r: ForwardRequest): Port {
    if r.preferredLocalPort == 0 then r.remotePort else r.preferredLocalPort
  }

  function RequestTarget(r: ForwardRequest): Endpoint { Endpoint(NormalizedHost(r.remoteHost), r.remotePort) }

  /** What a request that finds no entry for its endpoint does. */
  function CreateNew(s: State, r: ForwardRequest, enabled: bool, free: Port -> bool, opens: bool, now: nat)
    : (State, Result<(Forward, bool), Error>)
  {
    if |s.forwards| >= MAX_FORWARDS then (s, Err(LimitReached)) else
    var port := if enabled then FirstUsable(s.forwards, None, free, StartPort(r)) else Some(StartPort(r));
    if port.None? then (s, Err(NoLocalPort))
    else if enabled && !(opens && port.value !in s.live) then (s, Err(ForwardFailed))
    else
      var next := Increment(s.next);
      var f := NewForward(r, ForwardId(next), port.value, enabled, now);
      (State(s.forwards[f.id := f], next, if enabled then s.live[port.value := Target(f)] else s.live),
       Ok((f, true)))
  }

  /** `create` and `create_paused`. */
  ghost function Create(s: State, r: ForwardRequest, enabled: bool, free: Port -> bool, opens: bool, now: nat)
    : (State, Result<(Forward, bool), Error>)
  {
    var invalid := Validate(r);
    if invalid.Some? then (s, Err(Rejected(invalid.value)))
    else if Held(s.forwards, RequestTarget(r)) then
      var id := Holder(s.forwards, RequestTarget(r));
      var f := Enriched(s.forwards[id], r, now);
      (s.(forwards := s.forwards[id := f]), Ok((f, false)))
    else CreateNew(s, r, enabled, free, opens, now)
  }

  function Remove(s: State, id: string, cancels: bool): (State, Result<Option<Forward>, Error>) {
    if id !in s.forwards then (s, Ok(None)) else
    var f := s.forwards[id];
    if f.enabled && !cancels then (s, Err(CancelFailed))
    else (State(s.forwards - {id}, s.next, if f.enabled then Cancel(s.live, f.localPort, Target(f)) else s.live),
          Ok(Some(f)))
  }

  function Disabled(f: Forward): Forward { f.(enabled := false, tunnelOpenedAt := 0) }

  function SetEnabled(s: State, id: string, enabled: bool, free: Port -> bool, succeeded: bool, now: nat)
    : (State, Result<Option<Forward>, Error>)
  {
    if id !in s.forwards then (s, Ok(None)) else
    var f := s.forwards[id];
    if f.enabled == enabled then (s, Ok(Some(f)))
    else if enabled then
      var port := FirstUsable(s.forwards, Some(id), free, f.localPort);
      if port.None? then (s, Err(NoLocalPort))
      else if !(succeeded && port.value !in s.live) then (s, Err(ForwardFailed))
      else
        var g := f.(localPort := port.value, enabled := true, tunnelOpenedAt := now);
        (State(s.forwards[id := g], s.next, s.live[port.value := Target(g)]), Ok(Some(g)))
    else if !succeeded then (s, Err(CancelFailed))
    else (State(s.forwards[id := Disabled(f)], s.next, Cancel(s.live, f.localPort, Target(f))), Ok(Some(Disabled(f))))
  }

  predicate PortTaken(fw: Forwards, id: string, p: Port) {
    exists other :: other in fw && other != id && fw[other].enabled && fw[other].localPort == p
  }

  /** `set_local_port`: cancel, forward on the new port, and on failure forward on
      the old port again; if that fails too, the entry is disabled. */
  function SetLocalPort(s: State, id: string, port: Port, free: Port -> bool,
                        cancels: bool, opens: bool, reopens: bool, now: nat)
    : (State, Result<Option<Forward>, Error>)
  {
    if port == 0 then (s, Err(PortZero))
    else if id !in s.forwards then (s, Ok(None)) else
    var f := s.forwards[id];
    if f.localPort == port then (s, Ok(Some(f)))
    else if PortTaken(s.forwards, id, port) || (f.enabled && !free(port)) then (s, Err(PortUnavailable))
    else if !f.enabled then
      var g := f.(localPort := port);
      (s.(forwards := s.forwards[id := g]), Ok(Some(g)))
    else if !cancels then (s, Err(CancelFailed))
    else
      var closed := Cancel(s.live, f.localPort, Target(f));
      if opens && port !in closed then
        var g := f.(localPort := port, tunnelOpenedAt := now);
        (State(s.forwards[id := g], s.next, closed[port := Target(g)]), Ok(Some(g)))
      else if reopens && f.localPort !in closed then
        (s.(live := closed[f.localPort := Target(f)]), Err(RemapFailed(false)))
      else
        (State(s.forwards[id := Disabled(f)], s.next, closed), Err(RemapFailed(true)))
  }

  /** `close_all`: removal of the listed entries, one after the other; `stuck` are
      those whose tunnel cannot be closed. */
  function CloseAll(s: State, ids: seq<string>, stuck: set<string>): State {
    if ids == [] then s
    else
      var last := ids[|ids| - 1];
      Remove(CloseAll(s, ids[..|ids| - 1], stuck), last, last !in stuck).0
  }

  // ---------------------------------------------------------------------------
  // What each operation asks of SSH, and how it was answered
  // ---------------------------------------------------------------------------

  function CreateNewAsks(s: State, r: ForwardRequest, enabled: bool, free: Port -> bool, opens: bool): seq<SshCall> {
    var port := FirstUsable(s.forwards, None, free, StartPort(r));
    if |s.forwards| >= MAX_FORWARDS || !enabled || port.None? then []
    else [Open(port.value, RequestTarget(r), opens && port.value !in s.live)]
  }

  ghost function CreateAsks(s: State, r: ForwardRequest, enabled: bool, free: Port -> bool, opens: bool)
    : seq<SshCall>
  {
    if Validate(r).Some? || Held(s.forwards, RequestTarget(r)) then [] else CreateNewAsks(s, r, enabled, free, opens)
  }

  function RemoveAsks(s: State, id: string, cancels: bool): seq<SshCall> {
    if id in s.forwards && s.forwards[id].enabled then
      [Close(s.forwards[id].localPort, Target(s.forwards[id]), cancels)]
    else []
  }

  function SetEnabledAsks(s: State, id: string, enabled: bool, free: Port -> bool, succeeded: bool): seq<SshCall> {
    if id !in s.forwards || s.forwards[id].enabled == enabled then [] else
    var f := s.forwards[id];
    var port := FirstUsable(s.forwards, Some(id), free, f.localPort);
    if !enabled then [Close(f.localPort, Target(f), succeeded)]
    else if port.None? then []
    else [Open(port.value, Target(f), succeeded && port.value !in s.live)]
  }

  function SetLocalPortAsks(s: State, id: string, port: Port, free: Port -> bool,
                            cancels: bool, opens: bool, reopens: bool): seq<SshCall> {
    if port == 0 || id !in s.forwards || !s.forwards[id].enabled || s.forwards[id].localPort == port then []
    else if PortTaken(s.forwards, id, port) || !free(port) then []
    else
      var f := s.forwards[id];
      var closed := Cancel(s.live, f.localPort, Target(f));
      if !cancels then [Close(f.localPort, Target(f), false)]
      else if opens && port !in closed then [Close(f.localPort, Target(f), true), Open(port, Target(f), true)]
      else [Close(f.localPort, Target(f), true), Open(port, Target(f), false),
            Open(f.localPort, Target(f), reopens && f.localPort !in closed)]
  }

  function CloseAllAsks(s: State, ids: seq<string>, stuck: set<string>): seq<SshCall> {
    if ids == [] then []
    else
      var last := ids[|ids| - 1];
      CloseAllAsks(s, ids[..|ids| - 1], stuck) + RemoveAsks(s, last, last !in stuck)
  }
}
