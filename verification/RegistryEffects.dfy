/** What a call of the registry has done when it answers, in terms of the entries, the
    tunnels and the requests made to the SSH master: an answer of success means that
    the change asked for was made and nothing else, an error has its reason. */
module RegistryEffects {
  import opened Wrappers
  import opened Detect
  import opened Model
  import opened RegistrySpec
  import opened RegistryProofs

  /** A local port that is not 0, that a bind would find free, and that no other enabled
      entry has; `id` is the entry that may have it. */
  ghost predicate Offered(fw: Forwards, id: Option<string>, free: Port -> bool, p: Port) {
    && p != 0 && free(p)
    && !exists other :: other in fw && id != Some(other) && fw[other].enabled && fw[other].localPort == p
  }

  /** The port search is exact: it finds the least such port from `start` on, and
      nothing only when there is none. */
  lemma PortChoice(fw: Forwards, id: Option<string>, free: Port -> bool, start: Port)
    ensures var choice := FirstUsable(fw, id, free, start);
            && (choice.None? <==> forall p: Port :: start <= p ==> !Offered(fw, id, free, p))
            && forall p: Port :: choice == Some(p) <==>
                 start <= p && Offered(fw, id, free, p)
                 && forall q: Port :: start <= q < p ==> !Offered(fw, id, free, q)
  {
    forall p: Port
      ensures Usable(fw, id, free, p) <==> Offered(fw, id, free, p)
    {
      if Usable(fw, id, free, p) {
        assert !exists other :: other in fw && id != Some(other) && fw[other].enabled && fw[other].localPort == p;
      }
    }
  }

  /** The endpoint is held: an entry forwards it. */
  ghost predicate Forwarded(fw: Forwards, host: string, port: Port) {
    exists id :: id in fw && fw[id].remoteHost == host && fw[id].remotePort == port
  }

  function HostOf(r: ForwardRequest): string {
    if r.remoteHost in ["::1", "[::1]"] then "::1" else "127.0.0.1"
  }

  /** An entry of the endpoint is there already: it learns what the request knows about
      the server. A different process id replaces both; otherwise only gaps are filled. */
  ghost predicate Learned(f: Forward, r: ForwardRequest, now: nat, g: Forward) {
    && g == f.(serverStartedAt := g.serverStartedAt, processId := g.processId, tunnelOpenedAt := g.tunnelOpenedAt)
    && (r.processId.Some? ==> g.processId == r.processId)
    && (r.processId.None? ==> g.processId == f.processId)
    && (r.processId.Some? && r.processId != f.processId ==> g.serverStartedAt == r.serverStartedAt)
    && (r.processId.None? || r.processId == f.processId ==>
          g.serverStartedAt == if f.serverStartedAt.Some? then f.serverStartedAt else r.serverStartedAt)
    && g.tunnelOpenedAt == if f.enabled && f.tunnelOpenedAt == 0 then now else f.tunnelOpenedAt
  }

  ghost predicate AsRequested(f: Forward, r: ForwardRequest) {
    && f.remotePort == r.remotePort && f.remoteHost == HostOf(r)
    && f.paneId == r.paneId && f.process == r.process && f.detectedUrl == r.detectedUrl
    && f.automatic == r.automatic && f.serverStartedAt == r.serverStartedAt && f.processId == r.processId
  }

  function FirstPort(r: ForwardRequest): Port {
    if r.preferredLocalPort != 0 then r.preferredLocalPort else r.remotePort
  }

  /** Why a request was turned down, and what SSH was asked before. */
  ghost predicate TurnedDown(s: State, r: ForwardRequest, enabled: bool, free: Port -> bool, e: Error,
                             asks: seq<SshCall>)
  {
    var choice := FirstUsable(s.forwards, None, free, FirstPort(r));
    match e
    case Rejected(reason) => Validate(r) == Some(reason) && asks == []
    case LimitReached => |s.forwards| >= 256 && asks == []
    case NoLocalPort => |s.forwards| < 256 && enabled && choice.None? && asks == []
    case ForwardFailed =>
      && |s.forwards| < 256 && enabled && choice.Some?
      && asks == [Open(choice.value, Endpoint(HostOf(r), r.remotePort), false)]
    case _ => false
  }

  /** A new entry as requested, on the least usable port with its tunnel open, or paused
      and without one. */
  ghost predicate Added(s: State, r: ForwardRequest, enabled: bool, free: Port -> bool, now: nat, s': State,
                        f: Forward, asks: seq<SshCall>)
  {
    var server := Endpoint(HostOf(r), r.remotePort);
    && |s.forwards| < 256
    && s'.next == (if s.next < U64_MAX then s.next + 1 else U64_MAX)
    && s'.forwards == s.forwards[f.id := f] && f.id == ForwardId(s'.next)
    && AsRequested(f, r) && f.enabled == enabled
    && if enabled then
         && FirstUsable(s.forwards, None, free, FirstPort(r)) == Some(f.localPort) && f.tunnelOpenedAt == now
         && f.localPort !in s.live && s'.live == s.live[f.localPort := server]
         && asks == [Open(f.localPort, server, true)]
       else f.localPort == FirstPort(r) && f.tunnelOpenedAt == 0 && s'.live == s.live && asks == []
  }

  /** An entry of the endpoint has learned from the request; nothing else changed. */
  ghost predicate Repeated(s: State, r: ForwardRequest, now: nat, s': State, id: string, f: Forward) {
    && id in s.forwards && s.forwards[id].remoteHost == HostOf(r) && s.forwards[id].remotePort == r.remotePort
    && Learned(s.forwards[id], r, now, f) && s' == s.(forwards := s.forwards[id := f])
  }

  /** Creation: an error has its reason and changes nothing; a request for a forwarded
      endpoint enriches its entry; any other adds one. */
  lemma CreationEffect(s: State, r: ForwardRequest, enabled: bool, free: Port -> bool, opens: bool, now: nat)
    ensures var (s', outcome) := Create(s, r, enabled, free, opens, now);
            var asks := CreateAsks(s, r, enabled, free, opens);
            match outcome
            case Err(e) =>
              && s' == s && TurnedDown(s, r, enabled, free, e, asks)
              && (Validate(r).None? ==> !Forwarded(s.forwards, HostOf(r), r.remotePort))
            case Ok((f, created)) =>
              && Validate(r).None? && (created <==> !Forwarded(s.forwards, HostOf(r), r.remotePort))
              && if created then Added(s, r, enabled, free, now, s', f, asks)
                 else asks == [] && exists id :: Repeated(s, r, now, s', id, f)
  {
    hide *;
    CreateCases(s, r, enabled, free, opens, now);
    CreateAsksCases(s, r, enabled, free, opens);
    HeldMeans(s.forwards, r);
    if Held(s.forwards, RequestTarget(r)) {
      EnrichmentEffect(s, r, now);
    }
    AdditionEffect(s, r, enabled, free, opens, now);
  }

  /** When a creation fails. */
  lemma CreationFails(s: State, r: ForwardRequest, enabled: bool, free: Port -> bool, opens: bool, now: nat)
    ensures var choice := FirstUsable(s.forwards, None, free, FirstPort(r));
            Create(s, r, enabled, free, opens, now).1.Err? <==>
              || Validate(r).Some?
              || (!Forwarded(s.forwards, HostOf(r), r.remotePort)
                  && (|| |s.forwards| >= 256
                      || (enabled && (choice.None? || !opens || choice.value in s.live))))
  {
    hide *;
    CreateCases(s, r, enabled, free, opens, now);
    HeldMeans(s.forwards, r);
    AdditionFails(s, r, enabled, free, opens, now);
  }

  lemma AdditionFails(s: State, r: ForwardRequest, enabled: bool, free: Port -> bool, opens: bool, now: nat)
    ensures var choice := FirstUsable(s.forwards, None, free, FirstPort(r));
            CreateNew(s, r, enabled, free, opens, now).1.Err? <==>
              |s.forwards| >= 256 || (enabled && (choice.None? || !opens || choice.value in s.live))
  {
    hide FirstUsable, ForwardId;
  }

  lemma CreateAsksCases(s: State, r: ForwardRequest, enabled: bool, free: Port -> bool, opens: bool)
    ensures CreateAsks(s, r, enabled, free, opens) ==
            if Validate(r).Some? || Held(s.forwards, RequestTarget(r)) then []
            else CreateNewAsks(s, r, enabled, free, opens)
    ensures forall e, asks :: Validate(r) == Some(e) && asks == [] ==>
                                TurnedDown(s, r, enabled, free, Rejected(e), asks)
  {
    hide Validate, Held, CreateNewAsks, FirstUsable;
  }

  lemma HeldMeans(fw: Forwards, r: ForwardRequest)
    ensures Held(fw, RequestTarget(r)) <==> Forwarded(fw, HostOf(r), r.remotePort)
  {
    if Held(fw, RequestTarget(r)) {
      var id :| Holds(fw, RequestTarget(r), id);
      assert id in fw && fw[id].remoteHost == HostOf(r) && fw[id].remotePort == r.remotePort;
    }
    if id :| id in fw && fw[id].remoteHost == HostOf(r) && fw[id].remotePort == r.remotePort {
      assert Holds(fw, RequestTarget(r), id);
    }
  }

  lemma EnrichmentEffect(s: State, r: ForwardRequest, now: nat)
    requires Held(s.forwards, RequestTarget(r))
    ensures var id := Holder(s.forwards, RequestTarget(r));
            var f := Enriched(s.forwards[id], r, now);
            Repeated(s, r, now, s.(forwards := s.forwards[id := f]), id, f)
  {
  }

  lemma AdditionEffect(s: State, r: ForwardRequest, enabled: bool, free: Port -> bool, opens: bool, now: nat)
    ensures var (s', outcome) := CreateNew(s, r, enabled, free, opens, now);
            var asks := CreateNewAsks(s, r, enabled, free, opens);
            match outcome
            case Err(e) => s' == s && TurnedDown(s, r, enabled, free, e, asks)
            case Ok((f, created)) => created && Added(s, r, enabled, free, now, s', f, asks)
  {
    hide Validate, ForwardId, FirstUsable;
  }

  // ---------------------------------------------------------------------------
  // Operations on an entry
  // ---------------------------------------------------------------------------

  /** Only this entry changed, and of it at most the port, the switch and the time. */
  ghost predicate OnlyMoved(s: State, id: string, g: Forward, s': State) {
    && id in s.forwards && s'.next == s.next && s'.forwards == s.forwards[id := g]
    && g == s.forwards[id].(localPort := g.localPort, enabled := g.enabled, tunnelOpenedAt := g.tunnelOpenedAt)
  }

  /** Removal: the entry is gone and its tunnel closed, or nothing changed because the
      master would not close it. */
  lemma RemovalEffect(s: State, id: string, cancels: bool)
    requires Backed(s.forwards, s.live)
    ensures var (s', r) := Remove(s, id, cancels);
            var asks := RemoveAsks(s, id, cancels);
            match r
            case Err(e) =>
              && s' == s && id in s.forwards && s.forwards[id].enabled
              && e.CancelFailed? && asks == [Close(s.forwards[id].localPort, Target(s.forwards[id]), false)]
            case Ok(None) => s' == s && id !in s.forwards && asks == []
            case Ok(Some(f)) =>
              && id in s.forwards && f == s.forwards[id] && s'.forwards == s.forwards - {id} && s'.next == s.next
              && s'.live == (if f.enabled then s.live - {f.localPort} else s.live)
              && asks == if f.enabled then [Close(f.localPort, Target(f), true)] else []
  {
  }

  /** The switch: an entry is as asked; when it was resumed it is on the least usable
      port from its old one on, where exactly its tunnel was opened; when it was paused
      exactly its tunnel was closed. An error changes nothing and has its reason. */
  lemma ToggleEffect(s: State, id: string, enabled: bool, free: Port -> bool, succeeds: bool, now: nat)
    requires Backed(s.forwards, s.live)
    ensures var (s', r) := SetEnabled(s, id, enabled, free, succeeds, now);
            var asks := SetEnabledAsks(s, id, enabled, free, succeeds);
            match r
            case Ok(None) => s' == s && id !in s.forwards && asks == []
            case Ok(Some(g)) =>
              && OnlyMoved(s, id, g, s') && g.enabled == enabled &&
              var f := s.forwards[id];
              if f.enabled == enabled then g == f && s' == s && asks == []
              else if enabled then
                && FirstUsable(s.forwards, Some(id), free, f.localPort) == Some(g.localPort)
                && g.localPort !in s.live && g.tunnelOpenedAt == now
                && s'.live == s.live[g.localPort := Target(f)] && asks == [Open(g.localPort, Target(f), true)]
              else
                && g.localPort == f.localPort && g.tunnelOpenedAt == 0
                && s'.live == s.live - {f.localPort} && asks == [Close(f.localPort, Target(f), true)]
            case Err(e) =>
              && s' == s && id in s.forwards && s.forwards[id].enabled != enabled &&
              var f := s.forwards[id];
              var choice := FirstUsable(s.forwards, Some(id), free, f.localPort);
              match e
              case NoLocalPort => enabled && choice.None? && asks == []
              case ForwardFailed => enabled && choice.Some? && asks == [Open(choice.value, Target(f), false)]
              case CancelFailed => !enabled && asks == [Close(f.localPort, Target(f), false)]
              case _ => false
  {
    hide FirstUsable;
  }

  ghost predicate TakenByAnother(fw: Forwards, id: string, port: Port) {
    exists other :: other in fw && other != id && fw[other].enabled && fw[other].localPort == port
  }

  function SwitchedOff(f: Forward): Forward { f.(enabled := false, tunnelOpenedAt := 0) }

  /** A new local port: the entry is on it, with its tunnel moved there. An error has its
      reason, and only the last one leaves the entry without its tunnel, and paused. */
  lemma RemapEffect(s: State, id: string, port: Port, free: Port -> bool,
                    cancels: bool, opens: bool, reopens: bool, now: nat)
    requires Backed(s.forwards, s.live)
    ensures var (s', r) := SetLocalPort(s, id, port, free, cancels, opens, reopens, now);
            var asks := SetLocalPortAsks(s, id, port, free, cancels, opens, reopens);
            match r
            case Ok(None) => port != 0 && s' == s && id !in s.forwards && asks == []
            case Ok(Some(g)) =>
              && port != 0 && OnlyMoved(s, id, g, s') && g.localPort == port &&
              var f := s.forwards[id];
              && g.enabled == f.enabled
              && if f.localPort == port then g == f && s' == s && asks == []
                 else if !f.enabled then
                   g.tunnelOpenedAt == f.tunnelOpenedAt && s'.live == s.live && asks == []
                   && !TakenByAnother(s.forwards, id, port)
                 else
                   && !TakenByAnother(s.forwards, id, port) && free(port) && port !in s.live
                   && g.tunnelOpenedAt == now && s'.live == (s.live - {f.localPort})[port := Target(f)]
                   && asks == [Close(f.localPort, Target(f), true), Open(port, Target(f), true)]
            case Err(PortZero) => port == 0 && s' == s && asks == []
            case Err(e) =>
              && port != 0 && id in s.forwards && s.forwards[id].localPort != port &&
              var f := s.forwards[id];
              var close, open := Close(f.localPort, Target(f), true), Open(port, Target(f), false);
              match e
              case PortUnavailable =>
                && (TakenByAnother(s.forwards, id, port) || (f.enabled && !free(port)))
                && s' == s && asks == []
              case CancelFailed => f.enabled && s' == s && asks == [close.(ok := false)]
              case RemapFailed(disabled) =>
                && f.enabled && asks == [close, open, Open(f.localPort, Target(f), !disabled)]
                && if !disabled then s' == s
                   else s' == State(s.forwards[id := SwitchedOff(f)], s.next, s.live - {f.localPort})
              case _ => false
  {
    var (s', r) := SetLocalPort(s, id, port, free, cancels, opens, reopens, now);
    if id in s.forwards && s.forwards[id].enabled {
      var f := s.forwards[id];
      assert s.live == (s.live - {f.localPort})[f.localPort := Target(f)];
    }
  }

  ghost predicate ClosedFor(fw: Forwards, ids: seq<string>, stuck: set<string>, p: Port) {
    exists id :: id in ids && id in fw && fw[id].enabled && id !in stuck && fw[id].localPort == p
  }

  /** Closing everything closes exactly the tunnels of the listed entries for which SSH
      did not refuse. */
  lemma {:induction false} ClosingEffect(s: State, ids: seq<string>, stuck: set<string>)
    requires Backed(s.forwards, s.live) && DistinctPorts(s.forwards) && Distinct(ids)
    ensures var live := CloseAll(s, ids, stuck).live;
            forall p :: p in live <==> p in s.live && !ClosedFor(s.forwards, ids, stuck, p)
    ensures forall p :: p in CloseAll(s, ids, stuck).live ==> CloseAll(s, ids, stuck).live[p] == s.live[p]
  {
    hide ClosedFor, DistinctPorts;
    if ids == [] {
      assert forall p :: !ClosedFor(s.forwards, ids, stuck, p) by { NoneClosed(s.forwards, stuck); }
    } else {
      var front, last := ids[..|ids| - 1], ids[|ids| - 1];
      ClosingEffect(s, front, stuck);
      CloseAllLeaves(s, front, stuck);
      assert ids == front + [last];
      ClosedForOneMore(s.forwards, front, stuck, last);
      if last in s.forwards && s.forwards[last].enabled {
        NotClosedYet(s.forwards, front, stuck, last);
      }
    }
  }

  lemma NoneClosed(fw: Forwards, stuck: set<string>)
    ensures forall p :: !ClosedFor(fw, [], stuck, p)
  {
  }

  lemma ClosedForOneMore(fw: Forwards, ids: seq<string>, stuck: set<string>, id: string)
    ensures forall p :: ClosedFor(fw, ids + [id], stuck, p) <==>
                          ClosedFor(fw, ids, stuck, p)
                          || (id in fw && fw[id].enabled && id !in stuck && fw[id].localPort == p)
  {
    forall p
      ensures ClosedFor(fw, ids + [id], stuck, p) <==>
              ClosedFor(fw, ids, stuck, p) || (id in fw && fw[id].enabled && id !in stuck && fw[id].localPort == p)
    {
      if id in fw && fw[id].enabled && id !in stuck && fw[id].localPort == p {
        assert id in ids + [id];
      }
    }
  }

  lemma NotClosedYet(fw: Forwards, ids: seq<string>, stuck: set<string>, id: string)
    requires DistinctPorts(fw) && id in fw && fw[id].enabled && id !in ids
    ensures !ClosedFor(fw, ids, stuck, fw[id].localPort)
  {
  }

  /** It asks SSH once about each enabled entry of the list. */
  lemma {:induction false} ClosingAsks(s: State, ids: seq<string>, stuck: set<string>, call: SshCall)
    ensures call in CloseAllAsks(s, ids, stuck) <==>
            exists id :: id in ids && id in s.forwards && s.forwards[id].enabled
                         && call == Close(s.forwards[id].localPort, Target(s.forwards[id]), id !in stuck)
    ensures |CloseAllAsks(s, ids, stuck)| <= |ids|
  {
    if ids != [] {
      var front, last := ids[..|ids| - 1], ids[|ids| - 1];
      ClosingAsks(s, front, stuck, call);
      assert ids == front + [last];
    }
  }

  // ---------------------------------------------------------------------------
  // Any call
  // ---------------------------------------------------------------------------

  /** The answer a call gives: the entry it is about, nothing, or an error. */
  ghost function Answer(s: State, c: Call): Result<Option<Forward>, Error> {
    match c
    case CallCreate(request, enabled, free, opens, now) =>
      var outcome := Create(s, request, enabled, free, opens, now).1;
      if outcome.Ok? then Ok(Some(outcome.value.0)) else Err(outcome.error)
    case CallRemove(id, cancels) => Remove(s, id, cancels).1
    case CallSetEnabled(id, enabled, free, succeeds, now) => SetEnabled(s, id, enabled, free, succeeds, now).1
    case CallSetLocalPort(id, port, free, cancels, opens, reopens, now) =>
      SetLocalPort(s, id, port, free, cancels, opens, reopens, now).1
    case CallCloseAll(_, _) => Ok(None)
  }

  /** What a call asks of SSH. */
  ghost function Asks(s: State, c: Call): seq<SshCall> {
    match c
    case CallCreate(request, enabled, free, opens, _) => CreateAsks(s, request, enabled, free, opens)
    case CallRemove(id, cancels) => RemoveAsks(s, id, cancels)
    case CallSetEnabled(id, enabled, free, succeeds, _) => SetEnabledAsks(s, id, enabled, free, succeeds)
    case CallSetLocalPort(id, port, free, cancels, opens, reopens, _) =>
      SetLocalPortAsks(s, id, port, free, cancels, opens, reopens)
    case CallCloseAll(ids, stuck) => CloseAllAsks(s, ids, stuck)
  }

  lemma FailedMeans(s: State, c: Call)
    ensures Failed(s, c) <==> Answer(s, c).Err?
  {
  }
}
