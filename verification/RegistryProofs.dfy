/** What every registry operation keeps, on success and on every kind of failure,
    over whole runs. */
module RegistryProofs {
  import opened Wrappers
  import opened Detect
  import opened Model
  import opened RegistrySpec

  // ---------------------------------------------------------------------------
  // Changing one entry
  // ---------------------------------------------------------------------------

  /** No other enabled entry uses the port. */
  ghost predicate PortOpenFor(fw: Forwards, id: string, p: Port) {
    forall other :: other in fw && other != id && fw[other].enabled ==> fw[other].localPort != p
  }

  lemma EntryFacts(fw: Forwards, next: nat, id: string)
    requires Entries(fw, next) && id in fw
    ensures fw[id].id == id && WellFormedEntry(fw[id])
    ensures fw[id].enabled ==> PortOpenFor(fw, id, fw[id].localPort)
  {
    hide Issued, ForwardId;
  }

  lemma ReplaceKeepsTargets(fw: Forwards, id: string, g: Forward)
    requires DistinctTargets(fw) && id in fw && Target(g) == Target(fw[id])
    ensures DistinctTargets(fw[id := g])
  {
  }

  lemma PutKeepsPorts(fw: Forwards, id: string, g: Forward)
    requires DistinctPorts(fw)
    requires g.enabled ==> PortOpenFor(fw, id, g.localPort)
    ensures DistinctPorts(fw[id := g])
  {
  }

  lemma ReplaceKeepsEntries(fw: Forwards, next: nat, id: string, g: Forward)
    requires Entries(fw, next) && id in fw
    requires g.id == id && WellFormedEntry(g) && Target(g) == Target(fw[id])
    requires g.enabled ==> PortOpenFor(fw, id, g.localPort)
    ensures Entries(fw[id := g], next)
  {
    hide Issued, ForwardId, DistinctTargets, DistinctPorts, PortOpenFor, WellFormedEntry, Target;
    ReplaceKeepsTargets(fw, id, g);
    PutKeepsPorts(fw, id, g);
    assert fw[id := g].Keys == fw.Keys;
    assert Named(fw[id := g], next);
  }

  /** Closing the tunnel of one entry and disabling it. */
  lemma CloseEntry(fw: Forwards, live: Tunnels, id: string)
    requires DistinctPorts(fw) && Truthful(fw, live) && id in fw && fw[id].enabled
    ensures var closed := Cancel(live, fw[id].localPort, Target(fw[id]));
            && closed == live - {fw[id].localPort}
            && Truthful(fw[id := Disabled(fw[id])], closed)
            && Truthful(fw - {id}, closed)
  {
    var f := fw[id];
    var closed := Cancel(live, f.localPort, Target(f));
    forall p | p in closed
      ensures Claims(fw[id := Disabled(f)], p) && Claims(fw - {id}, p)
    {
      assert Claims(fw, p);
      var other :| other in fw && fw[other].enabled && fw[other].localPort == p;
      assert other in fw - {id} && other in fw[id := Disabled(f)];
    }
  }

  /** Opening a tunnel for one entry that had none. */
  lemma OpenEntry(fw: Forwards, live: Tunnels, id: string, g: Forward)
    requires Truthful(fw, live) && (id in fw ==> !fw[id].enabled)
    requires g.enabled && g.localPort !in live
    ensures Truthful(fw[id := g], live[g.localPort := Target(g)])
  {
    var more, opens := fw[id := g], live[g.localPort := Target(g)];
    forall p | p in opens
      ensures Claims(more, p)
    {
      if p == g.localPort {
        assert more[id].enabled;
      } else {
        assert Claims(fw, p);
        var other :| other in fw && fw[other].enabled && fw[other].localPort == p;
        assert other in more && more[other] == fw[other];
      }
    }
  }

  lemma UnchangedTunnel(fw: Forwards, live: Tunnels, id: string, g: Forward)
    requires Truthful(fw, live)
    requires id in fw ==> g.enabled == fw[id].enabled && (g.enabled ==>
               g.localPort == fw[id].localPort && Target(g) == Target(fw[id]))
    requires id !in fw ==> !g.enabled
    ensures Truthful(fw[id := g], live)
  {
    forall p | p in live
      ensures Claims(fw[id := g], p)
    {
      assert Claims(fw, p);
      var other :| other in fw && fw[other].enabled && fw[other].localPort == p;
      assert other in fw[id := g];
    }
  }

  lemma IssuedLater(fw: Forwards, next: nat, next': nat)
    requires Named(fw, next) && next <= next'
    ensures Named(fw, next')
  {
    hide ForwardId, WellFormedEntry;
    forall id | id in fw
      ensures Issued(id, next')
    {
      var n :| 1 <= n <= next && id == ForwardId(n);
    }
  }

  lemma AddKeepsTargets(fw: Forwards, id: string, g: Forward)
    requires DistinctTargets(fw) && id !in fw
    requires forall other :: other in fw ==> Target(fw[other]) != Target(g)
    ensures DistinctTargets(fw[id := g])
  {
  }

  lemma AddKeepsEntries(fw: Forwards, next: nat, next': nat, g: Forward)
    requires Entries(fw, next) && |fw| < MAX_FORWARDS && next <= next' <= U64_MAX
    requires WellFormedEntry(g) && Issued(g.id, next') && g.id !in fw
    requires forall id :: id in fw ==> Target(fw[id]) != Target(g)
    requires g.enabled ==> PortOpenFor(fw, g.id, g.localPort)
    ensures Entries(fw[g.id := g], next')
  {
    hide Issued, ForwardId, DistinctTargets, DistinctPorts, PortOpenFor, WellFormedEntry, Target;
    IssuedLater(fw, next, next');
    AddKeepsTargets(fw, g.id, g);
    PutKeepsPorts(fw, g.id, g);
    assert fw[g.id := g].Keys == fw.Keys + {g.id};
    assert Named(fw[g.id := g], next');
  }

  lemma DropKeepsEntries(fw: Forwards, next: nat, id: string)
    requires Entries(fw, next) && id in fw
    ensures Entries(fw - {id}, next)
    ensures |fw - {id}| == |fw| - 1
  {
    hide Issued, ForwardId, WellFormedEntry, Target;
    var fw' := fw - {id};
    assert fw'.Keys == fw.Keys - {id};
    assert DistinctTargets(fw') && DistinctPorts(fw') && Named(fw', next);
  }

  /** The numbers of ids already issued do not reach past `next`. */
  lemma NextIdIsNew(fw: Forwards, next: nat)
    requires Entries(fw, next)
    ensures ForwardId(next + 1) !in fw
  {
    if ForwardId(next + 1) in fw {
      assert Issued(ForwardId(next + 1), next);
      var n :| 1 <= n <= next && ForwardId(next + 1) == ForwardId(n);
      ForwardIdInjective(next + 1, n);
    }
  }

  // ---------------------------------------------------------------------------
  // Each operation keeps the entries well formed, whatever the master is doing
  // ---------------------------------------------------------------------------

  /** At saturation of the counter a new entry takes the last id again. That is
      harmful exactly when the id still belongs to an enabled entry and the request
      passes every test that stands before the new entry. */
  ghost predicate OverwritesEnabled(s: State, r: ForwardRequest, enabled: bool, free: Port -> bool, opens: bool) {
    && s.next == U64_MAX
    && ForwardId(U64_MAX) in s.forwards && s.forwards[ForwardId(U64_MAX)].enabled
    && Validate(r).None? && !Held(s.forwards, RequestTarget(r)) && |s.forwards| < MAX_FORWARDS
    && (enabled ==>
          && FirstUsable(s.forwards, None, free, StartPort(r)).Some?
          && opens && FirstUsable(s.forwards, None, free, StartPort(r)).value !in s.live)
  }

  lemma EnrichKeepsInv(s: State, id: string, r: ForwardRequest, now: nat)
    requires Entries(s.forwards, s.next) && id in s.forwards
    ensures Entries(s.forwards[id := Enriched(s.forwards[id], r, now)], s.next)
    ensures Truthful(s.forwards, s.live) ==> Truthful(s.forwards[id := Enriched(s.forwards[id], r, now)], s.live)
  {
    var g := Enriched(s.forwards[id], r, now);
    ReplaceKeepsEntries(s.forwards, s.next, id, g);
    if Truthful(s.forwards, s.live) {
      UnchangedTunnel(s.forwards, s.live, id, g);
    }
  }

  lemma HolderIs(fw: Forwards, e: Endpoint, id: string)
    requires DistinctTargets(fw) && Holds(fw, e, id)
    ensures Held(fw, e) && Holder(fw, e) == id
  {
  }

  lemma NotHeld(fw: Forwards, e: Endpoint)
    requires !Held(fw, e)
    ensures forall id :: id in fw ==> Target(fw[id]) != e
  {
    forall id | id in fw
      ensures Target(fw[id]) != e
    {
      assert !Holds(fw, e, id);
    }
  }

  /** What a new entry is, when one is made. */
  lemma NewEntryFacts(s: State, r: ForwardRequest, enabled: bool, free: Port -> bool, opens: bool, now: nat)
    requires r.remotePort != 0 && s.next < U64_MAX && CreateNew(s, r, enabled, free, opens, now).1.Ok?
    ensures var (s', outcome) := CreateNew(s, r, enabled, free, opens, now);
            var f := outcome.value.0;
            && f.id == ForwardId(s.next + 1) && s'.next == s.next + 1 && s'.forwards == s.forwards[f.id := f]
            && |s.forwards| < MAX_FORWARDS && WellFormedEntry(f) && Target(f) == RequestTarget(r)
            && f.enabled == enabled && (enabled ==> PortOpenFor(s.forwards, f.id, f.localPort))
            && (enabled ==> f.localPort !in s.live && s'.live == s.live[f.localPort := Target(f)])
            && (!enabled ==> s'.live == s.live)
  {
    hide ForwardId;
  }

  lemma NextIdIsIssued(next: nat)
    ensures Issued(ForwardId(next + 1), next + 1)
  {
  }

  lemma CreateNewKeepsInv(s: State, r: ForwardRequest, enabled: bool, free: Port -> bool, opens: bool, now: nat)
    requires Entries(s.forwards, s.next)
    requires r.remotePort != 0
    requires forall id :: id in s.forwards ==> Target(s.forwards[id]) != RequestTarget(r)
    requires s.next < U64_MAX
    ensures var s' := CreateNew(s, r, enabled, free, opens, now).0;
            && Entries(s'.forwards, s'.next)
            && (Truthful(s.forwards, s.live) ==> Truthful(s'.forwards, s'.live))
  {
    hide *;
    var (s', outcome) := CreateNew(s, r, enabled, free, opens, now);
    if outcome.Err? {
      NotCreated(s, r, enabled, free, opens, now);
    } else {
      NewEntryFacts(s, r, enabled, free, opens, now);
      var f := outcome.value.0;
      NextIdIsNew(s.forwards, s.next);
      NextIdIsIssued(s.next);
      AddKeepsEntries(s.forwards, s.next, s'.next, f);
      if Truthful(s.forwards, s.live) {
        if enabled {
          OpenEntry(s.forwards, s.live, f.id, f);
        } else {
          UnchangedTunnel(s.forwards, s.live, f.id, f);
        }
      }
    }
  }

  lemma NotCreated(s: State, r: ForwardRequest, enabled: bool, free: Port -> bool, opens: bool, now: nat)
    ensures var (s', outcome) := CreateNew(s, r, enabled, free, opens, now); outcome.Err? ==> s' == s
  {
    hide ForwardId, FirstUsable;
  }

  lemma CreateKeepsInv(s: State, r: ForwardRequest, enabled: bool, free: Port -> bool, opens: bool, now: nat)
    requires Entries(s.forwards, s.next) && s.next < U64_MAX
    ensures var s' := Create(s, r, enabled, free, opens, now).0;
            && Entries(s'.forwards, s'.next)
            && (Truthful(s.forwards, s.live) ==> Truthful(s'.forwards, s'.live))
  {
    hide Validate, CreateNew, Enriched, Entries, Truthful, Held, Target;
    if Validate(r).None? {
      AcceptedRequest(r);
      if Held(s.forwards, RequestTarget(r)) {
        EnrichKeepsInv(s, Holder(s.forwards, RequestTarget(r)), r, now);
      } else {
        NotHeld(s.forwards, RequestTarget(r));
        CreateNewKeepsInv(s, r, enabled, free, opens, now);
      }
    }
  }

  /** Dropping an entry that has no tunnel. */
  lemma DropEntry(fw: Forwards, live: Tunnels, id: string)
    requires Truthful(fw, live) && id in fw && !fw[id].enabled
    ensures Truthful(fw - {id}, live)
  {
    forall p | p in live
      ensures Claims(fw - {id}, p)
    {
      assert Claims(fw, p);
      var other :| other in fw && fw[other].enabled && fw[other].localPort == p;
      assert other in fw - {id};
    }
  }

  lemma RemoveKeepsInv(s: State, id: string, cancels: bool)
    requires Entries(s.forwards, s.next)
    ensures var s' := Remove(s, id, cancels).0;
            && Entries(s'.forwards, s'.next)
            && (Truthful(s.forwards, s.live) ==> Truthful(s'.forwards, s'.live))
  {
    hide Named, DistinctTargets, DistinctPorts, Truthful, Target;
    var s' := Remove(s, id, cancels).0;
    if s' != s {
      DropKeepsEntries(s.forwards, s.next, id);
      if Truthful(s.forwards, s.live) {
        if s.forwards[id].enabled {
          CloseEntry(s.forwards, s.live, id);
        } else {
          DropEntry(s.forwards, s.live, id);
        }
      }
    }
  }

  lemma SetEnabledKeepsInv(s: State, id: string, enabled: bool, free: Port -> bool, succeeds: bool, now: nat)
    requires Entries(s.forwards, s.next)
    ensures var s' := SetEnabled(s, id, enabled, free, succeeds, now).0;
            && Entries(s'.forwards, s'.next)
            && (Truthful(s.forwards, s.live) ==> Truthful(s'.forwards, s'.live))
  {
    var s' := SetEnabled(s, id, enabled, free, succeeds, now).0;
    if s' != s {
      ReplaceKeepsEntries(s.forwards, s.next, id, s'.forwards[id]);
      if Truthful(s.forwards, s.live) {
        if enabled {
          OpenEntry(s.forwards, s.live, id, s'.forwards[id]);
        } else {
          CloseEntry(s.forwards, s.live, id);
        }
      }
    }
  }

  lemma SetLocalPortKeepsInv(s: State, id: string, port: Port, free: Port -> bool,
                             cancels: bool, opens: bool, reopens: bool, now: nat)
    requires Entries(s.forwards, s.next)
    ensures var s' := SetLocalPort(s, id, port, free, cancels, opens, reopens, now).0;
            && Entries(s'.forwards, s'.next)
            && (Truthful(s.forwards, s.live) ==> Truthful(s'.forwards, s'.live))
  {
    hide Named, DistinctTargets, DistinctPorts, Truthful;
    var s' := SetLocalPort(s, id, port, free, cancels, opens, reopens, now).0;
    if s' != s {
      EntryFacts(s.forwards, s.next, id);
      var f, g := s.forwards[id], s'.forwards[id];
      assert s'.forwards == s.forwards[id := g];
      ReplaceKeepsEntries(s.forwards, s.next, id, g);
      if Truthful(s.forwards, s.live) {
        if f.enabled {
          CloseEntry(s.forwards, s.live, id);
          if g.enabled {
            var paused := s.forwards[id := Disabled(f)];
            OpenEntry(paused, Cancel(s.live, f.localPort, Target(f)), id, g);
            assert paused[id := g] == s.forwards[id := g];
          }
        } else {
          UnchangedTunnel(s.forwards, s.live, id, g);
        }
      }
    }
  }

  lemma {:induction false} CloseAllKeepsInv(s: State, ids: seq<string>, stuck: set<string>)
    requires Entries(s.forwards, s.next)
    ensures var s' := CloseAll(s, ids, stuck);
            && Entries(s'.forwards, s'.next) && s'.next == s.next
            && (Truthful(s.forwards, s.live) ==> Truthful(s'.forwards, s'.live))
  {
    hide Entries, Truthful;
    if ids != [] {
      var front, last := ids[..|ids| - 1], ids[|ids| - 1];
      CloseAllKeepsInv(s, front, stuck);
      RemoveKeepsInv(CloseAll(s, front, stuck), last, last !in stuck);
    }
  }

  /** Closing everything leaves exactly the entries whose tunnel would not close. */
  lemma {:induction false} CloseAllLeaves(s: State, ids: seq<string>, stuck: set<string>)
    ensures CloseAll(s, ids, stuck).forwards ==
            map id | id in s.forwards && (id in ids ==> s.forwards[id].enabled && id in stuck) :: s.forwards[id]
  {
    if ids != [] {
      var front, last := ids[..|ids| - 1], ids[|ids| - 1];
      CloseAllLeaves(s, front, stuck);
      assert ids == front + [last];
    }
  }

  lemma CloseAllBegins(s: State, stuck: set<string>)
    ensures CloseAll(s, [], stuck) == s && CloseAllAsks(s, [], stuck) == []
  {
  }

  lemma CloseAllOneMore(s: State, ids: seq<string>, stuck: set<string>, id: string)
    requires id !in ids
    ensures id !in stuck ==> CloseAll(s, ids + [id], stuck) == Remove(CloseAll(s, ids, stuck), id, true).0
    ensures CloseAll(s, ids + [id], stuck + {id}) == Remove(CloseAll(s, ids, stuck), id, false).0
    ensures id !in stuck ==> CloseAllAsks(s, ids + [id], stuck) == CloseAllAsks(s, ids, stuck) + RemoveAsks(s, id, true)
    ensures CloseAllAsks(s, ids + [id], stuck + {id}) == CloseAllAsks(s, ids, stuck) + RemoveAsks(s, id, false)
  {
    hide Remove, RemoveAsks;
    assert (ids + [id])[..|ids|] == ids;
    CloseAllIgnores(s, ids, stuck, id);
  }

  /** Only the outcomes of the listed ids matter. */
  lemma {:induction false} CloseAllIgnores(s: State, ids: seq<string>, stuck: set<string>, id: string)
    requires id !in ids
    ensures CloseAll(s, ids, stuck + {id}) == CloseAll(s, ids, stuck)
    ensures CloseAllAsks(s, ids, stuck + {id}) == CloseAllAsks(s, ids, stuck)
  {
    if ids != [] {
      CloseAllIgnores(s, ids[..|ids| - 1], stuck, id);
    }
  }

  // ---------------------------------------------------------------------------
  // Runs
  // ---------------------------------------------------------------------------

  /** One registry call together with the answers the outside world gives it. */
  datatype Call =
    | CallCreate(request: ForwardRequest, enabled: bool, free: Port -> bool, opens: bool, now: nat)
    | CallRemove(id: string, cancels: bool)
    | CallSetEnabled(id: string, enabled: bool, free: Port -> bool, succeeds: bool, now: nat)
    | CallSetLocalPort(id: string, port: Port, free: Port -> bool, cancels: bool, opens: bool, reopens: bool, now: nat)
    | CallCloseAll(ids: seq<string>, stuck: set<string>)

  ghost function Step(s: State, c: Call): State {
    match c
    case CallCreate(request, enabled, free, opens, now) => Create(s, request, enabled, free, opens, now).0
    case CallRemove(id, cancels) => Remove(s, id, cancels).0
    case CallSetEnabled(id, enabled, free, succeeds, now) => SetEnabled(s, id, enabled, free, succeeds, now).0
    case CallSetLocalPort(id, port, free, cancels, opens, reopens, now) =>
      SetLocalPort(s, id, port, free, cancels, opens, reopens, now).0
    case CallCloseAll(ids, stuck) => CloseAll(s, ids, stuck)
  }

  ghost function Run(s: State, calls: seq<Call>): State {
    if calls == [] then s else Step(Run(s, calls[..|calls| - 1]), calls[|calls| - 1])
  }

  /** The id a call issues, if it creates an entry. */
  ghost function IssuedBy(s: State, c: Call): Option<string> {
    match c
    case CallCreate(request, enabled, free, opens, now) =>
      var outcome := Create(s, request, enabled, free, opens, now).1;
      if outcome.Ok? && outcome.value.1 then Some(outcome.value.0.id) else None
    case _ => None
  }

  lemma StepCounts(s: State, c: Call)
    requires s.next < U64_MAX
    ensures IssuedBy(s, c) == if Step(s, c).next == s.next then None else Some(ForwardId(s.next + 1))
    ensures s.next <= Step(s, c).next <= s.next + 1
  {
    hide Validate;
    if c.CallCloseAll? {
      CloseAllCounts(s, c.ids, c.stuck);
    }
  }

  lemma {:induction false} CloseAllCounts(s: State, ids: seq<string>, stuck: set<string>)
    ensures CloseAll(s, ids, stuck).next == s.next
  {
    if ids != [] {
      CloseAllCounts(s, ids[..|ids| - 1], stuck);
    }
  }

  lemma StepKeepsInv(s: State, c: Call)
    requires Entries(s.forwards, s.next) && s.next < U64_MAX
    ensures var s' := Step(s, c);
            && Entries(s'.forwards, s'.next)
            && (Truthful(s.forwards, s.live) ==> Truthful(s'.forwards, s'.live))
  {
    hide Create, Remove, SetEnabled, SetLocalPort, CloseAll, Entries, Truthful;
    match c
    case CallCreate(request, enabled, free, opens, now) =>
      CreateKeepsInv(s, request, enabled, free, opens, now);
    case CallRemove(id, cancels) =>
      RemoveKeepsInv(s, id, cancels);
    case CallSetEnabled(id, enabled, free, succeeds, now) =>
      SetEnabledKeepsInv(s, id, enabled, free, succeeds, now);
    case CallSetLocalPort(id, port, free, cancels, opens, reopens, now) =>
      SetLocalPortKeepsInv(s, id, port, free, cancels, opens, reopens, now);
    case CallCloseAll(ids, stuck) =>
      CloseAllKeepsInv(s, ids, stuck);
  }

  // ---------------------------------------------------------------------------
  // Enabled entries keep their tunnels even when stray tunnels are around
  // ---------------------------------------------------------------------------

  lemma ReplaceKeepsBacked(fw: Forwards, live: Tunnels, id: string, g: Forward)
    requires Backed(fw, live)
    requires g.enabled ==> g.localPort in live && live[g.localPort] == Target(g)
    ensures Backed(fw[id := g], live)
  {
  }

  lemma CloseKeepsBacked(fw: Forwards, live: Tunnels, id: string)
    requires DistinctPorts(fw) && Backed(fw, live) && id in fw && fw[id].enabled
    ensures var closed := Cancel(live, fw[id].localPort, Target(fw[id]));
            && closed == live - {fw[id].localPort}
            && Backed(fw[id := Disabled(fw[id])], closed) && Backed(fw - {id}, closed)
  {
  }

  lemma OpenKeepsBacked(fw: Forwards, live: Tunnels, id: string, g: Forward)
    requires Backed(fw, live) && g.localPort !in live
    ensures Backed(fw[id := g], live[g.localPort := Target(g)])
  {
  }

  lemma CreateKeepsBacked(s: State, r: ForwardRequest, enabled: bool, free: Port -> bool, opens: bool, now: nat)
    requires Backed(s.forwards, s.live)
    ensures var s' := Create(s, r, enabled, free, opens, now).0; Backed(s'.forwards, s'.live)
  {
    hide Validate, Backed, Held, ForwardId, FirstUsable;
    CreateCases(s, r, enabled, free, opens, now);
    if Validate(r).None? {
      if Held(s.forwards, RequestTarget(r)) {
        var id := Holder(s.forwards, RequestTarget(r));
        if s.forwards[id].enabled { BackedEntry(s.forwards, s.live, id); }
        ReplaceKeepsBacked(s.forwards, s.live, id, Enriched(s.forwards[id], r, now));
      } else {
        var (s', outcome) := CreateNew(s, r, enabled, free, opens, now);
        if outcome.Ok? {
          var f := outcome.value.0;
          if enabled {
            OpenKeepsBacked(s.forwards, s.live, f.id, f);
          } else {
            ReplaceKeepsBacked(s.forwards, s.live, f.id, f);
          }
        }
      }
    }
  }

  lemma BackedEntry(fw: Forwards, live: Tunnels, id: string)
    requires Backed(fw, live) && id in fw && fw[id].enabled
    ensures fw[id].localPort in live && live[fw[id].localPort] == Target(fw[id])
  {
  }

  lemma SetLocalPortKeepsBacked(s: State, id: string, port: Port, free: Port -> bool,
                                cancels: bool, opens: bool, reopens: bool, now: nat)
    requires DistinctPorts(s.forwards) && Backed(s.forwards, s.live)
    ensures var s' := SetLocalPort(s, id, port, free, cancels, opens, reopens, now).0; Backed(s'.forwards, s'.live)
  {
    hide Backed, DistinctPorts, PortTaken, Cancel;
    var s' := SetLocalPort(s, id, port, free, cancels, opens, reopens, now).0;
    if s' != s {
      var f, g := s.forwards[id], s'.forwards[id];
      assert s'.forwards == s.forwards[id := g];
      if f.enabled {
        CloseKeepsBacked(s.forwards, s.live, id);
        var paused, closed := s.forwards[id := Disabled(f)], s.live - {f.localPort};
        if g.enabled {
          OpenKeepsBacked(paused, closed, id, g);
          assert paused[id := g] == s.forwards[id := g];
        }
      } else {
        ReplaceKeepsBacked(s.forwards, s.live, id, g);
      }
    }
  }

  lemma SetEnabledKeepsBacked(s: State, id: string, enabled: bool, free: Port -> bool, succeeds: bool, now: nat)
    requires DistinctPorts(s.forwards) && Backed(s.forwards, s.live)
    ensures var s' := SetEnabled(s, id, enabled, free, succeeds, now).0; Backed(s'.forwards, s'.live)
  {
    hide Backed, DistinctPorts, FirstUsable, Cancel;
    var s' := SetEnabled(s, id, enabled, free, succeeds, now).0;
    if s' != s {
      if enabled {
        OpenKeepsBacked(s.forwards, s.live, id, s'.forwards[id]);
      } else {
        CloseKeepsBacked(s.forwards, s.live, id);
      }
    }
  }

  lemma RemoveKeepsBacked(s: State, id: string, cancels: bool)
    requires DistinctPorts(s.forwards) && Backed(s.forwards, s.live)
    ensures var s' := Remove(s, id, cancels).0; Backed(s'.forwards, s'.live)
  {
    if id in s.forwards && s.forwards[id].enabled && cancels {
      CloseKeepsBacked(s.forwards, s.live, id);
    }
  }

  lemma {:induction false} CloseAllKeepsBacked(s: State, ids: seq<string>, stuck: set<string>)
    requires DistinctPorts(s.forwards) && Backed(s.forwards, s.live)
    ensures var s' := CloseAll(s, ids, stuck); DistinctPorts(s'.forwards) && Backed(s'.forwards, s'.live)
  {
    hide Backed;
    if ids != [] {
      var front, last := ids[..|ids| - 1], ids[|ids| - 1];
      CloseAllKeepsBacked(s, front, stuck);
      RemoveKeepsBacked(CloseAll(s, front, stuck), last, last !in stuck);
    }
  }

  lemma StepKeepsBacked(s: State, c: Call)
    requires DistinctPorts(s.forwards) && Backed(s.forwards, s.live)
    ensures Backed(Step(s, c).forwards, Step(s, c).live)
  {
    hide Create, Remove, SetEnabled, SetLocalPort, CloseAll, DistinctPorts, Backed;
    match c
    case CallCreate(request, enabled, free, opens, now) =>
      CreateKeepsBacked(s, request, enabled, free, opens, now);
    case CallRemove(id, cancels) =>
      RemoveKeepsBacked(s, id, cancels);
    case CallSetEnabled(id, enabled, free, succeeds, now) =>
      SetEnabledKeepsBacked(s, id, enabled, free, succeeds, now);
    case CallSetLocalPort(id, port, free, cancels, opens, reopens, now) =>
      SetLocalPortKeepsBacked(s, id, port, free, cancels, opens, reopens, now);
    case CallCloseAll(ids, stuck) =>
      CloseAllKeepsBacked(s, ids, stuck);
  }

  // ---------------------------------------------------------------------------
  // No call opens, closes or adopts a stray tunnel
  // ---------------------------------------------------------------------------

  lemma CloseKeepsUnclaimed(fw: Forwards, live: Tunnels, id: string)
    requires DistinctPorts(fw) && Backed(fw, live) && id in fw && fw[id].enabled
    ensures var closed := Cancel(live, fw[id].localPort, Target(fw[id]));
            && Unclaimed(fw[id := Disabled(fw[id])], closed) == Unclaimed(fw, live)
            && Unclaimed(fw - {id}, closed) == Unclaimed(fw, live)
  {
    var port := fw[id].localPort;
    forall p: Port
      ensures Claims(fw[id := Disabled(fw[id])], p) <==> Claims(fw, p) && p != port
      ensures Claims(fw - {id}, p) <==> Claims(fw, p) && p != port
    {
      if Claims(fw, p) && p != port {
        var other :| other in fw && fw[other].enabled && fw[other].localPort == p;
        assert other in fw - {id} && other in fw[id := Disabled(fw[id])];
      }
    }
    assert Claims(fw, port);
  }

  lemma OpenKeepsUnclaimed(fw: Forwards, live: Tunnels, id: string, g: Forward)
    requires (id in fw ==> !fw[id].enabled) && g.enabled && g.localPort !in live
    ensures Unclaimed(fw[id := g], live[g.localPort := Target(g)]) == Unclaimed(fw, live)
  {
    hide Claims;
    var fw', live' := fw[id := g], live[g.localPort := Target(g)];
    forall p: Port
      ensures p in Unclaimed(fw', live') <==> p in Unclaimed(fw, live)
      ensures p in Unclaimed(fw, live) ==> Unclaimed(fw', live')[p] == live[p]
    {
      OpenAddsOneClaim(fw, id, g, p);
    }
  }

  lemma OpenAddsOneClaim(fw: Forwards, id: string, g: Forward, p: Port)
    requires (id in fw ==> !fw[id].enabled) && g.enabled
    ensures Claims(fw[id := g], p) <==> Claims(fw, p) || p == g.localPort
  {
    if p == g.localPort { assert fw[id := g][id].localPort == p; }
    if Claims(fw, p) {
      var other :| other in fw && fw[other].enabled && fw[other].localPort == p;
      assert other in fw[id := g] && fw[id := g][other] == fw[other];
    }
  }

  lemma ReplaceKeepsUnclaimed(fw: Forwards, live: Tunnels, id: string, g: Forward)
    requires id in fw ==> g.enabled == fw[id].enabled && (g.enabled ==> g.localPort == fw[id].localPort)
    requires id !in fw ==> !g.enabled
    ensures Unclaimed(fw[id := g], live) == Unclaimed(fw, live)
  {
    forall p: Port
      ensures Claims(fw[id := g], p) <==> Claims(fw, p)
    {
      if Claims(fw, p) {
        var other :| other in fw && fw[other].enabled && fw[other].localPort == p;
        assert other in fw[id := g];
      }
    }
  }

  lemma DropKeepsUnclaimed(fw: Forwards, live: Tunnels, id: string)
    requires id in fw && !fw[id].enabled
    ensures Unclaimed(fw - {id}, live) == Unclaimed(fw, live)
  {
    forall p: Port
      ensures Claims(fw - {id}, p) <==> Claims(fw, p)
    {
      if Claims(fw, p) {
        var other :| other in fw && fw[other].enabled && fw[other].localPort == p;
        assert other in fw - {id};
      }
    }
  }

  lemma CreateKeepsUnclaimed(s: State, r: ForwardRequest, enabled: bool, free: Port -> bool, opens: bool, now: nat)
    requires Entries(s.forwards, s.next) && s.next < U64_MAX
    ensures var s' := Create(s, r, enabled, free, opens, now).0;
            Unclaimed(s'.forwards, s'.live) == Unclaimed(s.forwards, s.live)
  {
    hide Entries, Unclaimed, Validate, Held, ForwardId, FirstUsable;
    CreateCases(s, r, enabled, free, opens, now);
    NextIdIsNew(s.forwards, s.next);
    if Validate(r).None? {
      if Held(s.forwards, RequestTarget(r)) {
        var id := Holder(s.forwards, RequestTarget(r));
        ReplaceKeepsUnclaimed(s.forwards, s.live, id, Enriched(s.forwards[id], r, now));
      } else {
        var (s', outcome) := CreateNew(s, r, enabled, free, opens, now);
        if outcome.Ok? {
          var f := outcome.value.0;
          if enabled {
            OpenKeepsUnclaimed(s.forwards, s.live, f.id, f);
          } else {
            ReplaceKeepsUnclaimed(s.forwards, s.live, f.id, f);
          }
        }
      }
    }
  }

  lemma RemoveKeepsUnclaimed(s: State, id: string, cancels: bool)
    requires DistinctPorts(s.forwards) && Backed(s.forwards, s.live)
    ensures var s' := Remove(s, id, cancels).0; Unclaimed(s'.forwards, s'.live) == Unclaimed(s.forwards, s.live)
  {
    hide DistinctPorts, Backed, Unclaimed;
    if id in s.forwards {
      if !s.forwards[id].enabled {
        DropKeepsUnclaimed(s.forwards, s.live, id);
      } else if cancels {
        CloseKeepsUnclaimed(s.forwards, s.live, id);
      }
    }
  }

  lemma SetEnabledKeepsUnclaimed(s: State, id: string, enabled: bool, free: Port -> bool, succeeds: bool, now: nat)
    requires DistinctPorts(s.forwards) && Backed(s.forwards, s.live)
    ensures var s' := SetEnabled(s, id, enabled, free, succeeds, now).0;
            Unclaimed(s'.forwards, s'.live) == Unclaimed(s.forwards, s.live)
  {
    hide DistinctPorts, Backed, Unclaimed, FirstUsable, Cancel;
    var s' := SetEnabled(s, id, enabled, free, succeeds, now).0;
    if s' != s {
      if enabled {
        OpenKeepsUnclaimed(s.forwards, s.live, id, s'.forwards[id]);
      } else {
        CloseKeepsUnclaimed(s.forwards, s.live, id);
      }
    }
  }

  lemma SetLocalPortKeepsUnclaimed(s: State, id: string, port: Port, free: Port -> bool,
                                   cancels: bool, opens: bool, reopens: bool, now: nat)
    requires DistinctPorts(s.forwards) && Backed(s.forwards, s.live)
    ensures var s' := SetLocalPort(s, id, port, free, cancels, opens, reopens, now).0;
            Unclaimed(s'.forwards, s'.live) == Unclaimed(s.forwards, s.live)
  {
    hide DistinctPorts, Backed, Unclaimed, PortTaken, Cancel;
    var s' := SetLocalPort(s, id, port, free, cancels, opens, reopens, now).0;
    if s' != s {
      var f, g := s.forwards[id], s'.forwards[id];
      assert s'.forwards == s.forwards[id := g];
      if f.enabled {
        CloseKeepsUnclaimed(s.forwards, s.live, id);
        var paused, closed := s.forwards[id := Disabled(f)], Cancel(s.live, f.localPort, Target(f));
        if g.enabled {
          OpenKeepsUnclaimed(paused, closed, id, g);
          assert paused[id := g] == s.forwards[id := g];
        }
      } else {
        ReplaceKeepsUnclaimed(s.forwards, s.live, id, g);
      }
    }
  }

  lemma {:induction false} CloseAllKeepsUnclaimed(s: State, ids: seq<string>, stuck: set<string>)
    requires DistinctPorts(s.forwards) && Backed(s.forwards, s.live)
    ensures var s' := CloseAll(s, ids, stuck); Unclaimed(s'.forwards, s'.live) == Unclaimed(s.forwards, s.live)
  {
    hide DistinctPorts, Backed, Unclaimed;
    if ids != [] {
      var front, last := ids[..|ids| - 1], ids[|ids| - 1];
      CloseAllKeepsUnclaimed(s, front, stuck);
      CloseAllKeepsBacked(s, front, stuck);
      RemoveKeepsUnclaimed(CloseAll(s, front, stuck), last, last !in stuck);
    }
  }

  lemma StepKeepsUnclaimed(s: State, c: Call)
    requires Entries(s.forwards, s.next) && s.next < U64_MAX && Backed(s.forwards, s.live)
    ensures Unclaimed(Step(s, c).forwards, Step(s, c).live) == Unclaimed(s.forwards, s.live)
  {
    hide Create, Remove, SetEnabled, SetLocalPort, CloseAll, DistinctPorts, Backed, Unclaimed;
    match c
    case CallCreate(request, enabled, free, opens, now) =>
      CreateKeepsUnclaimed(s, request, enabled, free, opens, now);
    case CallRemove(id, cancels) =>
      RemoveKeepsUnclaimed(s, id, cancels);
    case CallSetEnabled(id, enabled, free, succeeds, now) =>
      SetEnabledKeepsUnclaimed(s, id, enabled, free, succeeds, now);
    case CallSetLocalPort(id, port, free, cancels, opens, reopens, now) =>
      SetLocalPortKeepsUnclaimed(s, id, port, free, cancels, opens, reopens, now);
    case CallCloseAll(ids, stuck) =>
      CloseAllKeepsUnclaimed(s, ids, stuck);
  }

  // ---------------------------------------------------------------------------
  // Whole runs
  // ---------------------------------------------------------------------------

  /** Whatever is called, in whatever order, and however SSH answers: the registry
      always tells the truth about the tunnels that are open. */
  lemma {:induction false} RegistryIsTruthful(s: State, calls: seq<Call>)
    requires Inv(s) && s.next + |calls| <= U64_MAX
    ensures Inv(Run(s, calls)) && s.next <= Run(s, calls).next <= s.next + |calls|
  {
    hide Step, Entries, Truthful;
    if calls != [] {
      var front, last := calls[..|calls| - 1], calls[|calls| - 1];
      RegistryIsTruthful(s, front);
      StepKeepsInv(Run(s, front), last);
      StepCounts(Run(s, front), last);
    }
  }

  lemma TruthfulFromTheStart(calls: seq<Call>)
    requires |calls| <= U64_MAX
    ensures Inv(Run(INITIAL, calls))
  {
    RegistryIsTruthful(INITIAL, calls);
  }

  lemma {:induction false} CounterGrows(s: State, calls: seq<Call>, n: nat)
    requires Inv(s) && s.next + |calls| <= U64_MAX && n <= |calls|
    ensures Run(s, calls[..n]).next <= Run(s, calls).next
  {
    if n < |calls| {
      var front := calls[..|calls| - 1];
      assert front[..n] == calls[..n];
      CounterGrows(s, front, n);
      RegistryIsTruthful(s, front);
      StepCounts(Run(s, front), calls[|calls| - 1]);
    } else {
      assert calls[..n] == calls;
    }
  }

  lemma IssuedInRun(s: State, calls: seq<Call>, i: nat)
    requires Inv(s) && s.next + |calls| <= U64_MAX && i < |calls|
    ensures var before := Run(s, calls[..i]);
            var issued := IssuedBy(before, calls[i]);
            issued.Some? ==> issued.value == ForwardId(before.next + 1) && Run(s,
                calls[..i + 1]).next == before.next + 1
  {
    hide Step, Entries, Truthful, ForwardId, IssuedBy;
    assert calls[..i + 1][..i] == calls[..i];
    RegistryIsTruthful(s, calls[..i]);
    StepCounts(Run(s, calls[..i]), calls[i]);
  }

  /** No id is given out twice in a run, not even after its entry was removed. */
  lemma IdsAreNeverReissued(s: State, calls: seq<Call>, i: nat, j: nat)
    requires Inv(s) && s.next + |calls| <= U64_MAX && i < j < |calls|
    requires IssuedBy(Run(s, calls[..i]), calls[i]).Some? && IssuedBy(Run(s, calls[..j]), calls[j]).Some?
    ensures IssuedBy(Run(s, calls[..i]), calls[i]) != IssuedBy(Run(s, calls[..j]), calls[j])
  {
    hide Run, Step, Entries, Truthful, ForwardId, IssuedBy;
    IssuedInRun(s, calls, i);
    IssuedInRun(s, calls, j);
    assert calls[..j][..i + 1] == calls[..i + 1];
    CounterGrows(s, calls[..j], i + 1);
    var m, n := Run(s, calls[..i]).next + 1, Run(s, calls[..j]).next + 1;
    if ForwardId(m) == ForwardId(n) {
      ForwardIdInjective(m, n);
    }
  }

  lemma CreateCases(s: State, r: ForwardRequest, enabled: bool, free: Port -> bool, opens: bool, now: nat)
    ensures var (s', outcome) := Create(s, r, enabled, free, opens, now);
            if Validate(r).Some? then s' == s && outcome == Err(Rejected(Validate(r).value))
            else if Held(s.forwards, RequestTarget(r)) then
              var id := Holder(s.forwards, RequestTarget(r));
              var f := Enriched(s.forwards[id], r, now);
              s' == s.(forwards := s.forwards[id := f]) && outcome == Ok((f, false))
            else (s', outcome) == CreateNew(s, r, enabled, free, opens, now)
  {
    hide Validate, CreateNew, Held, Enriched, RequestTarget;
  }

  /** The tests that stand before a new entry. */
  lemma CreatedWhen(s: State, r: ForwardRequest, enabled: bool, free: Port -> bool, opens: bool, now: nat)
    ensures CreateNew(s, r, enabled, free, opens, now).1.Ok? <==>
              && |s.forwards| < MAX_FORWARDS
              && (enabled ==>
                    && FirstUsable(s.forwards, None, free, StartPort(r)).Some?
                    && opens && FirstUsable(s.forwards, None, free, StartPort(r)).value !in s.live)
  {
    hide ForwardId, FirstUsable;
  }

  /** The saturating counter is the one way to make the registry lie: a creation
      keeps the invariant if and only if it does not overwrite an enabled entry. */
  lemma CreateKeepsInvExactly(s: State, r: ForwardRequest, enabled: bool, free: Port -> bool, opens: bool, now: nat)
    requires Inv(s)
    ensures Inv(Create(s, r, enabled, free, opens, now).0) <==>
            !OverwritesEnabled(s, r, enabled, free, opens)
  {
    hide Validate, Enriched, Create, CreateNew, Entries, Truthful, Held, Target, ForwardId, FirstUsable;
    if s.next < U64_MAX {
      CreateKeepsInv(s, r, enabled, free, opens, now);
    } else {
      CreateCases(s, r, enabled, free, opens, now);
      if Validate(r).None? {
        AcceptedRequest(r);
        if Held(s.forwards, RequestTarget(r)) {
          EnrichKeepsInv(s, Holder(s.forwards, RequestTarget(r)), r, now);
        } else {
          NotHeld(s.forwards, RequestTarget(r));
          assert s.next == U64_MAX by { CounterFits(s); }
          CreatedWhen(s, r, enabled, free, opens, now);
          CreateAtSaturation(s, r, enabled, free, opens, now);
        }
      }
    }
  }

  lemma CounterFits(s: State)
    requires Inv(s)
    ensures s.next <= U64_MAX
  {
  }

  lemma CreateAtSaturation(s: State, r: ForwardRequest, enabled: bool, free: Port -> bool, opens: bool, now: nat)
    requires Inv(s) && s.next == U64_MAX && r.remotePort != 0
    requires forall id :: id in s.forwards ==> Target(s.forwards[id]) != RequestTarget(r)
    ensures var (s', outcome) := CreateNew(s, r, enabled, free, opens, now);
            Inv(s') <==> !(outcome.Ok? && ForwardId(U64_MAX) in s.forwards && s.forwards[ForwardId(U64_MAX)].enabled)
  {
    hide ForwardId, Named, DistinctTargets, DistinctPorts, FirstUsable;
    var (s', outcome) := CreateNew(s, r, enabled, free, opens, now);
    if outcome.Ok? {
      var f := outcome.value.0;
      assert Issued(f.id, U64_MAX);
      assert Target(f) == RequestTarget(r);
      if f.id !in s.forwards {
        AddKeepsEntries(s.forwards, U64_MAX, U64_MAX, f);
        if enabled { OpenEntry(s.forwards, s.live, f.id, f); } else { UnchangedTunnel(s.forwards, s.live, f.id, f); }
      } else {
        OverwriteAtSaturation(s, f, s'.live);
      }
    }
  }

  /** Its owner's tunnel stays open and nobody claims it any more. */
  lemma OwnerIsForgotten(s: State, f: Forward, live: Tunnels)
    requires DistinctPorts(s.forwards) && Truthful(s.forwards, s.live) && f.id in s.forwards && s.forwards[f.id].enabled
    requires f.enabled ==> f.localPort !in s.live
    requires live == if f.enabled then s.live[f.localPort := Target(f)] else s.live
    ensures !Truthful(s.forwards[f.id := f], live)
  {
    var fw, p := s.forwards[f.id := f], s.forwards[f.id].localPort;
    assert p in live && !Claims(fw, p);
  }

  lemma OverwrittenEntries(fw: Forwards, f: Forward)
    requires Entries(fw, U64_MAX) && f.id in fw && WellFormedEntry(f) && Issued(f.id, U64_MAX)
    requires forall id :: id in fw ==> Target(fw[id]) != Target(f)
    requires f.enabled ==> PortOpenFor(fw, f.id, f.localPort)
    ensures Entries(fw[f.id := f], U64_MAX)
  {
    hide Entries, WellFormedEntry, Issued, ForwardId, Target;
    var others := fw - {f.id};
    DropKeepsEntries(fw, U64_MAX, f.id);
    EntriesSize(fw, U64_MAX);
    AddKeepsEntries(others, U64_MAX, U64_MAX, f);
    assert others[f.id := f] == fw[f.id := f];
  }

  lemma EntriesSize(fw: Forwards, next: nat)
    requires Entries(fw, next)
    ensures |fw| <= MAX_FORWARDS
  {
  }

  /** Taking an id that is still in use. */
  lemma OverwriteAtSaturation(s: State, f: Forward, live: Tunnels)
    requires Inv(s) && s.next == U64_MAX && f.id in s.forwards && Issued(f.id, U64_MAX)
    requires WellFormedEntry(f) && forall id :: id in s.forwards ==> Target(s.forwards[id]) != Target(f)
    requires f.enabled ==> f.localPort !in s.live && PortOpenFor(s.forwards, f.id, f.localPort)
    requires live == if f.enabled then s.live[f.localPort := Target(f)] else s.live
    ensures Inv(State(s.forwards[f.id := f], s.next, live)) <==> !s.forwards[f.id].enabled
  {
    hide Named, DistinctTargets, DistinctPorts, Truthful, WellFormedEntry, Issued, ForwardId, PortOpenFor, Target;
    OverwrittenEntries(s.forwards, f);
    if s.forwards[f.id].enabled {
      OwnerIsForgotten(s, f, live);
    } else if f.enabled {
      OpenEntry(s.forwards, s.live, f.id, f);
    } else {
      UnchangedTunnel(s.forwards, s.live, f.id, f);
    }
  }

  /** A concrete saturated registry where a paused creation loses a tunnel. */
  lemma SaturationLosesATunnel(r: ForwardRequest, free: Port -> bool)
    requires Validate(r).None? && RequestTarget(r) != Endpoint("127.0.0.1", 80)
    ensures var id := ForwardId(U64_MAX);
            var last := Forward(id, 80, 8080, "127.0.0.1", "p", "", "", true, true, None, None, 1);
            var s := State(map[id := last], U64_MAX, map[8080 := Endpoint("127.0.0.1", 80)]);
            Inv(s) && !Inv(Create(s, r, false, free, true, 1).0)
  {
    hide Validate, ForwardId;
    var id := ForwardId(U64_MAX);
    var last := Forward(id, 80, 8080, "127.0.0.1", "p", "", "", true, true, None, None, 1);
    var s := State(map[id := last], U64_MAX, map[8080 := Endpoint("127.0.0.1", 80)]);
    assert Issued(id, U64_MAX);
    assert id in s.forwards && Claims(s.forwards, 8080);
    assert !Held(s.forwards, RequestTarget(r));
    CreateKeepsInvExactly(s, r, false, free, true, 1);
  }

  // ---------------------------------------------------------------------------
  // Failure without effect
  // ---------------------------------------------------------------------------

  /** Creation, removal and toggling either succeed or leave entries, counter and
      tunnels exactly as they were. */
  lemma FailureLeavesNoTrace(s: State, c: Call)
    requires c.CallCreate? || c.CallRemove? || c.CallSetEnabled?
    ensures Failed(s, c) ==> Step(s, c) == s
  {
    hide Validate;
  }

  ghost predicate Failed(s: State, c: Call) {
    match c
    case CallCreate(request, enabled, free, opens, now) => Create(s, request, enabled, free, opens, now).1.Err?
    case CallRemove(id, cancels) => Remove(s, id, cancels).1.Err?
    case CallSetEnabled(id, enabled, free, succeeds, now) => SetEnabled(s, id, enabled, free, succeeds, now).1.Err?
    case CallSetLocalPort(id, port, free, cancels, opens, reopens, now) =>
      SetLocalPort(s, id, port, free, cancels, opens, reopens, now).1.Err?
    case CallCloseAll(ids, stuck) => false
  }

  /** Changing the local port is different: it fails without effect exactly when
      the old tunnel was never closed or could be opened again; otherwise the entry
      is disabled and its tunnel is gone. */
  lemma FailedRemap(s: State, id: string, port: Port, free: Port -> bool,
                    cancels: bool, opens: bool, reopens: bool, now: nat)
    requires Inv(s) && id in s.forwards
    requires SetLocalPort(s, id, port, free, cancels, opens, reopens, now).1.Err?
    ensures var s' := SetLocalPort(s, id, port, free, cancels, opens, reopens, now).0;
            var f := s.forwards[id];
            if port == 0 || !f.enabled || PortTaken(s.forwards, id, port) || !free(port) || !cancels || reopens
            then s' == s
            else s' == State(s.forwards[id := Disabled(f)], s.next, s.live - {f.localPort})
  {
    hide Named, DistinctTargets;
    var f := s.forwards[id];
    if port != 0 && f.enabled {
      CloseEntry(s.forwards, s.live, id);
      assert s.live == (s.live - {f.localPort})[f.localPort := Target(f)];
    }
  }
}
