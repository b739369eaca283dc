/** The registry object (src/registry.rs): it updates its map and counter in place
    while it talks to the SSH master. Each method is proved to compute the
    specification function of the same name, for the answers it happened to get. */
module ForwardRegistry {
  import opened Wrappers
  import opened Detect
  import opened Model
  import opened RegistrySpec
  import opened RegistryProofs
  import opened RestoreSpec
  import opened SshMasters

  datatype Snapshot = Snapshot(forwards: Forwards, next: nat)

  class Registry {
    var forwards: Forwards
    var next: nat
    const ssh: SshMaster

    ghost predicate Valid()
      reads this
    {
      Entries(forwards, next)
    }

    ghost function View(): State
      reads this, ssh
    {
      State(forwards, next, ssh.live)
    }

    lemma Unfold()
      ensures Valid() <==> Entries(forwards, next)
      ensures View() == State(forwards, next, ssh.live)
    {
    }

    constructor (ssh: SshMaster)
      ensures Valid() && forwards == map[] && next == 0 && this.ssh == ssh
    {
      forwards, next := map[], 0;
      this.ssh := ssh;
    }

    method TakeSnapshot() returns (snapshot: Snapshot)
      ensures snapshot == Snapshot(forwards, next)
    {
      snapshot := Snapshot(forwards, next);
    }

    /** `now`: any clock. */
    method Now() returns (time: nat) {
      time := *;
    }

    method Create(request: ForwardRequest, enabled: bool)
      returns (r: Result<(Forward, bool), Error>, ghost opens: bool, ghost time: nat)
      requires Valid()
      modifies this, ssh
      ensures (View(), r) == RegistrySpec.Create(old(View()), request, enabled, old(ssh.free), opens, time)
      ensures ssh.log == old(ssh.log) + CreateAsks(old(View()), request, enabled, old(ssh.free), opens)
      ensures old(next) < U64_MAX ==> Valid()
    {
      hide Validate, RegistrySpec.CreateNew, CreateNewAsks, Enriched, RegistrySpec.Create, Holds, Held, Entries;
      opens, time := false, 0;
      var invalid := Validate(request);
      if invalid.Some? {
        r := Err(Rejected(invalid.value));
      } else {
        var id := FindHolder(RequestTarget(request));
        if id.Some? {
          var now := Now();
          time := now;
          var f := Enriched(forwards[id.value], request, now);
          forwards := forwards[id.value := f];
          r := Ok((f, false));
        } else {
          r, opens, time := CreateNew(request, enabled);
        }
      }
      CreateCases(old(View()), request, enabled, old(ssh.free), opens, time);
      if old(next) < U64_MAX {
        CreateKeepsInv(old(View()), request, enabled, old(ssh.free), opens, time);
      }
    }

    /** The entry for an endpoint, if there is one. */
    method FindHolder(target: Endpoint) returns (id: Option<string>)
      requires Valid()
      ensures id.Some? <==> Held(forwards, target)
      ensures id.Some? ==> id.value in forwards && id.value == Holder(forwards, target)
    {
      hide Named, DistinctPorts;
      if found :| found in forwards && Target(forwards[found]) == target {
        assert Holds(forwards, target, found);
        HolderIs(forwards, target, found);
        return Some(found);
      }
      assert !Held(forwards, target);
      return None;
    }

    method CreateNew(request: ForwardRequest, enabled: bool)
      returns (r: Result<(Forward, bool), Error>, ghost opens: bool, ghost time: nat)
      modifies this, ssh
      ensures (View(), r) == RegistrySpec.CreateNew(old(View()), request, enabled, old(ssh.free), opens, time)
      ensures ssh.log == old(ssh.log) + CreateNewAsks(old(View()), request, enabled, old(ssh.free), opens)
    {
      hide FirstUsable, ForwardId;
      opens, time := false, 0;
      if |forwards| >= MAX_FORWARDS {
        return Err(LimitReached), opens, time;
      }
      var start := StartPort(request);
      var localPort := start;
      if enabled {
        var available := FirstUsable(forwards, None, ssh.free, start);
        if available.None? {
          return Err(NoLocalPort), opens, time;
        }
        localPort := available.value;
        var ok := ssh.Forward(localPort, RequestTarget(request));
        if !ok {
          return Err(ForwardFailed), opens, time;
        }
        opens := true;
      }
      next := Increment(next);
      var now := Now();
      time := now;
      var f := NewForward(request, ForwardId(next), localPort, enabled, now);
      forwards := forwards[f.id := f];
      return Ok((f, true)), opens, time;
    }

    method Remove(id: string) returns (r: Result<Option<Forward>, Error>, ghost cancels: bool)
      requires Valid()
      modifies this, ssh
      ensures (View(), r) == RegistrySpec.Remove(old(View()), id, cancels)
      ensures Valid() && next == old(next)
      ensures ssh.log == old(ssh.log) + RemoveAsks(old(View()), id, cancels)
      ensures cancels <==> r.Ok?
    {
      hide Entries;
      cancels := true;
      if id !in forwards {
        return Ok(None), cancels;
      }
      var f := forwards[id];
      if f.enabled {
        var ok := ssh.Cancel(f.localPort, Target(f));
        if !ok {
          return Err(CancelFailed), false;
        }
      }
      forwards := forwards - {id};
      r := Ok(Some(f));
      RemoveKeepsInv(old(View()), id, cancels);
    }

    method SetEnabled(id: string, enabled: bool)
      returns (r: Result<Option<Forward>, Error>, ghost succeeds: bool, ghost time: nat)
      requires Valid()
      modifies this, ssh
      ensures (View(), r) == RegistrySpec.SetEnabled(old(View()), id, enabled, old(ssh.free), succeeds, time)
      ensures ssh.log == old(ssh.log) + SetEnabledAsks(old(View()), id, enabled, old(ssh.free), succeeds)
      ensures Valid() && next == old(next)
    {
      hide Entries, FirstUsable;
      succeeds, time := false, 0;
      if id !in forwards {
        return Ok(None), succeeds, time;
      }
      var f := forwards[id];
      if f.enabled == enabled {
        return Ok(Some(f)), succeeds, time;
      }
      if enabled {
        var available := FirstUsable(forwards, Some(id), ssh.free, f.localPort);
        if available.None? {
          return Err(NoLocalPort), succeeds, time;
        }
        var ok := ssh.Forward(available.value, Target(f));
        if !ok {
          return Err(ForwardFailed), succeeds, time;
        }
        var now := Now();
        time := now;
        f := f.(localPort := available.value, enabled := true, tunnelOpenedAt := now);
      } else {
        var ok := ssh.Cancel(f.localPort, Target(f));
        if !ok {
          return Err(CancelFailed), succeeds, time;
        }
        f := f.(enabled := false, tunnelOpenedAt := 0);
      }
      succeeds := true;
      forwards := forwards[id := f];
      r := Ok(Some(f));
      SetEnabledKeepsInv(old(View()), id, enabled, old(ssh.free), succeeds, time);
    }

    method SetLocalPort(id: string, localPort: Port)
      returns (r: Result<Option<Forward>, Error>,
               ghost cancels: bool, ghost opens: bool, ghost reopens: bool, ghost time: nat)
      requires Valid()
      modifies this, ssh
      ensures (View(), r) ==
              RegistrySpec.SetLocalPort(old(View()), id, localPort, old(ssh.free), cancels, opens, reopens, time)
      ensures ssh.log == old(ssh.log) +
                         SetLocalPortAsks(old(View()), id, localPort, old(ssh.free), cancels, opens, reopens)
      ensures Valid() && next == old(next)
    {
      hide Entries;
      cancels, opens, reopens, time := false, false, false, 0;
      if localPort == 0 {
        return Err(PortZero), cancels, opens, reopens, time;
      }
      if id !in forwards {
        return Ok(None), cancels, opens, reopens, time;
      }
      var f := forwards[id];
      if f.localPort == localPort {
        return Ok(Some(f)), cancels, opens, reopens, time;
      }
      if PortTaken(forwards, id, localPort) || (f.enabled && !ssh.free(localPort)) {
        return Err(PortUnavailable), cancels, opens, reopens, time;
      }
      if f.enabled {
        var closed := ssh.Cancel(f.localPort, Target(f));
        if !closed {
          return Err(CancelFailed), cancels, opens, reopens, time;
        }
        cancels := true;
        var moved := ssh.Forward(localPort, Target(f));
        opens := moved;
        if !moved {
          var restored := ssh.Forward(f.localPort, Target(f));
          reopens := restored;
          if !restored {
            forwards := forwards[id := Disabled(f)];
          }
          r := Err(RemapFailed(!restored));
          SetLocalPortKeepsInv(old(View()), id, localPort, old(ssh.free), cancels, opens, reopens, time);
          return;
        }
      }
      f := f.(localPort := localPort);
      if f.enabled {
        var now := Now();
        time := now;
        f := f.(tunnelOpenedAt := now);
      }
      forwards := forwards[id := f];
      r := Ok(Some(f));
      SetLocalPortKeepsInv(old(View()), id, localPort, old(ssh.free), cancels, opens, reopens, time);
    }

    /** `close_all`; the ids may come in any order. The errors name exactly the
        entries that are still there. */
    method CloseAll() returns (errors: seq<string>, ghost ids: seq<string>, ghost stuck: set<string>)
      requires Valid()
      modifies this, ssh
      ensures View() == RegistrySpec.CloseAll(old(View()), ids, stuck)
      ensures ssh.log == old(ssh.log) + CloseAllAsks(old(View()), ids, stuck)
      ensures (forall id :: id in old(forwards) <==> id in ids) && Distinct(ids) && Distinct(errors)
      ensures forall id :: id in errors <==> id in forwards
      ensures Valid() && next == old(next)
    {
      hide *;
      Unfold();
      errors, ids, stuck := [], [], {};
      ghost var s, log := View(), ssh.log;
      ClosingBegins(s, log, stuck);
      var todo := forwards.Keys;
      while todo != {}
        invariant Valid() && next == s.next
        invariant ClosedSoFar(s, View(), log, ssh.log, ids, stuck)
        invariant Visiting(s.forwards, forwards, todo, ids, errors, stuck)
        decreases |todo|
      {
        var id :| id in todo;
        ghost var before, called := View(), ssh.log;
        Unfold();
        VisitingMeans(s.forwards, forwards, todo, ids, errors, stuck, id);
        VisitingOneMore(s.forwards, forwards, todo, ids, errors, stuck, id);
        todo := todo - {id};
        var r, cancels := Remove(id);
        Unfold();
        RemoveOutcome(before, id, cancels);
        CloseOneMore(s, before, log, called, ids, stuck, id, cancels);
        if r.Err? {
          errors := errors + [id];
          stuck := stuck + {id};
        }
        ids := ids + [id];
      }
      Unfold();
      ClosingEnds(s, View(), log, ssh.log, ids, errors, stuck);
    }

    /** `restore`: cancel what the snapshot does not want, open what it misses, and
        take over its entries once every call has succeeded. */
    method Restore(snapshot: Snapshot)
      returns (r: Result<(), Error>, ghost cancels: set<string>, ghost opens: set<string>)
      requires Valid() && Entries(snapshot.forwards, snapshot.next)
      modifies this, ssh
      ensures RestoreStep(old(View()), snapshot.forwards, snapshot.next, r.Ok?, cancels, opens, View())
      ensures r.Ok? ==> Valid()
      ensures AskedToRestore(old(forwards), snapshot.forwards, cancels, opens, old(ssh.log), ssh.log)
    {
      hide *;
      Unfold();
      SnapshotFacts(snapshot);
      SnapshotFacts(Snapshot(forwards, next));
      UnwantedAreKeys(forwards, snapshot.forwards);
      ghost var s := View();
      var current := forwards;
      var failedToClose, failedToOpen: seq<string>;
      ghost var log, closing, opening := ssh.log, [], [];
      failedToClose, cancels, closing := CancelUnwanted(current, snapshot.forwards);
      failedToOpen, opens, opening := OpenMissing(current, snapshot.forwards, s.live, cancels);
      RestoreAsked(current, snapshot.forwards, cancels, opens, closing, opening, log, ssh.log);
      if failedToClose == [] && failedToOpen == [] {
        forwards := snapshot.forwards;
        if snapshot.next > next {
          next := snapshot.next;
        }
        CounterMayGrow(snapshot, next);
        r := Ok(());
      } else {
        r := Err(RestoreFailed);
      }
      Unfold();
      RestoreStepHolds(s, snapshot.forwards, snapshot.next, r.Ok?, cancels, opens, View());
    }

    method CancelUnwanted(current: Forwards, wanted: Forwards)
      returns (errors: seq<string>, ghost cancels: set<string>, ghost closing: seq<string>)
      requires forwards == current
      modifies `forwards, ssh
      ensures cancels <= Unwanted(current, wanted)
      ensures errors == [] <==> cancels == Unwanted(current, wanted)
      ensures forwards == Mixed(current, wanted, cancels, {})
      ensures ssh.live == Closed(old(ssh.live), current, cancels)
      ensures Lists(closing, Unwanted(current, wanted)) && (forall id :: id in closing ==> id in current)
      ensures ssh.log == old(ssh.log) + Closings(current, closing, cancels)
    {
      hide *;
      errors, cancels, closing := [], {}, [];
      ghost var failed: set<string> := {};
      ghost var base, log := ssh.live, ssh.log;
      var todo := EnabledIds(current);
      NothingCalledYet(current, wanted, base);
      NoneTried(current, log);
      EnabledAreKeys(current);
      while todo != {}
        invariant todo <= EnabledIds(current) && cancels <= current.Keys
        invariant Divided(Unwanted(current, wanted), todo, cancels, failed)
        invariant errors == [] <==> failed == {}
        invariant forwards == Mixed(current, wanted, cancels, {})
        invariant ssh.live == Closed(base, current, cancels)
        invariant ClosingLog(current, closing, cancels, failed, log, ssh.log)
        decreases |todo|
      {
        var id :| id in todo;
        DividedOneLess(Unwanted(current, wanted), todo, cancels, failed, id);
        UnwantedMember(current, wanted, id);
        todo := todo - {id};
        EnabledMember(current, id);
        var f := current[id];
        if HasTunnel(wanted, f) {
          continue;
        }
        ClosingsOneMore(current, closing, cancels, failed, log, ssh.log, id);
        var ok := CancelOne(current, wanted, base, cancels, id);
        closing := closing + [id];
        if ok {
          cancels := cancels + {id};
        } else {
          errors := errors + [id];
          failed := failed + {id};
        }
      }
      DividedAtTheEnd(Unwanted(current, wanted), cancels, failed);
      ClosingsAll(Unwanted(current, wanted), current, closing, cancels, failed, log, ssh.log);
    }

    method CancelOne(current: Forwards, wanted: Forwards, ghost base: Tunnels, ghost cancels: set<string>,
                     id: string)
      returns (ok: bool)
      requires id in Unwanted(current, wanted) - cancels && cancels <= current.Keys
      requires forwards == Mixed(current, wanted, cancels, {})
      requires ssh.live == Closed(base, current, cancels)
      modifies `forwards, ssh
      ensures var cancels' := if ok then cancels + {id} else cancels;
              forwards == Mixed(current, wanted, cancels', {}) && ssh.live == Closed(base, current, cancels')
      ensures ssh.log == old(ssh.log) + [Close(current[id].localPort, Target(current[id]), ok)]
    {
      hide Mixed, Closed, HasTunnel;
      var f := current[id];
      ok := ssh.Cancel(f.localPort, Target(f));
      if ok {
        ClosedOneMore(base, current, cancels, id);
        MixedOneClosed(current, wanted, cancels, id);
        forwards := forwards[id := Disabled(f)];
      }
    }

    method OpenMissing(current: Forwards, wanted: Forwards, ghost live: Tunnels, ghost cancels: set<string>)
      returns (errors: seq<string>, ghost opens: set<string>, ghost opening: seq<string>)
      requires DistinctPorts(wanted) && cancels <= current.Keys
      requires forwards == Mixed(current, wanted, cancels, {}) && ssh.live == Closed(live, current, cancels)
      requires forall id :: id in wanted ==> wanted[id].id == id
      modifies `forwards, ssh
      ensures opens <= Unwanted(wanted, current)
      ensures errors == [] <==> opens == Unwanted(wanted, current)
      ensures forall id :: id in opens ==> wanted[id].localPort !in Closed(live, current, cancels)
      ensures forwards == Mixed(current, wanted, cancels, opens)
      ensures ssh.live == Closed(live, current, cancels) + TunnelsOf(wanted, opens)
      ensures Lists(opening, Unwanted(wanted, current)) && (forall id :: id in opening ==> id in wanted)
      ensures ssh.log == old(ssh.log) + Openings(wanted, opening, opens)
    {
      hide *;
      errors, opens, opening := [], {}, [];
      ghost var failed: set<string> := {};
      ghost var kept, log := ssh.live, ssh.log;
      var todo := EnabledIds(wanted);
      EnabledAreKeys(wanted);
      NothingCalledYet(wanted, current, map[]);
      NoneTried(wanted, log);
      NothingOpen(wanted, kept);
      while todo != {}
        invariant todo <= EnabledIds(wanted) && opens <= EnabledIds(wanted) <= wanted.Keys
        invariant Divided(Unwanted(wanted, current), todo, opens, failed)
        invariant errors == [] <==> failed == {}
        invariant forall id :: id in opens ==> wanted[id].localPort !in kept
        invariant forwards == Mixed(current, wanted, cancels, opens)
        invariant ssh.live == kept + TunnelsOf(wanted, opens)
        invariant OpeningLog(wanted, opening, opens, failed, log, ssh.log)
        decreases |todo|
      {
        var id :| id in todo;
        DividedOneLess(Unwanted(wanted, current), todo, opens, failed, id);
        UnwantedMember(wanted, current, id);
        todo := todo - {id};
        EnabledMember(wanted, id);
        var f := wanted[id];
        if HasTunnel(current, f) {
          continue;
        }
        OpeningsOneMore(wanted, opening, opens, failed, log, ssh.log, id);
        var ok := OpenOne(current, wanted, kept, cancels, opens, id);
        opening := opening + [id];
        if ok {
          opens := opens + {id};
        } else {
          errors := errors + [id];
          failed := failed + {id};
        }
      }
      DividedAtTheEnd(Unwanted(wanted, current), opens, failed);
      OpeningsAll(Unwanted(wanted, current), wanted, opening, opens, failed, log, ssh.log);
    }

    method OpenOne(current: Forwards, wanted: Forwards, ghost kept: Tunnels,
                   ghost cancels: set<string>, ghost opens: set<string>, id: string)
      returns (ok: bool)
      requires DistinctPorts(wanted) && id in wanted && wanted[id].id == id
      requires opens <= EnabledIds(wanted) && id in Unwanted(wanted, current) - opens
      requires forwards == Mixed(current, wanted, cancels, opens)
      requires ssh.live == kept + TunnelsOf(wanted, opens)
      modifies `forwards, ssh
      ensures var opens' := if ok then opens + {id} else opens;
              forwards == Mixed(current, wanted, cancels, opens') && ssh.live == kept + TunnelsOf(wanted, opens')
      ensures ok ==> wanted[id].localPort !in kept
      ensures ssh.log == old(ssh.log) + [Open(wanted[id].localPort, Target(wanted[id]), ok)]
    {
      hide Mixed, HasTunnel, TunnelsOf, DistinctPorts;
      var f := wanted[id];
      ok := ssh.Forward(f.localPort, Target(f));
      if ok {
        TunnelsOneMore(wanted, opens, id);
        MixedOneOpened(current, wanted, cancels, opens, id);
        forwards := forwards[f.id := f];
      }
    }

    /** `restore_tunnels`: all or nothing. Ports are looked up against the entries as
        they were, so that two of them stay distinct only because SSH cannot bind a
        port twice. */
    method RestoreTunnels(cancelled: nat -> bool)
      returns (r: Result<(), Error>, ghost order: seq<string>, ghost started: seq<Forward>, ghost stuck: string)
      requires Valid()
      modifies `forwards, ssh`live, ssh`free, ssh`log, ssh`looks
      ensures Valid() && next == old(next)
      ensures r.Err? ==> forwards == old(forwards)
      ensures r.Ok? && !ssh.alive ==> EnabledIds(forwards) == {}
      ensures r.Ok? ==> Replayed(old(forwards), forwards) && DistinctPorts(forwards)
      ensures r.Ok? ==> ssh.live == old(ssh.live) + TunnelsOf(forwards, EnabledIds(forwards))
      ensures r.Ok? ==> TunnelsOf(forwards, EnabledIds(forwards)).Keys !! old(ssh.live).Keys
      ensures forall p :: p in old(ssh.live) ==> p in ssh.live && ssh.live[p] == old(ssh.live)[p]
      ensures r.Err? ==> forall p :: p in ssh.live && p !in old(ssh.live) ==> CloseFailed(old(ssh.log), ssh.log, p)
      ensures old(ssh.log) <= ssh.log && old(ssh.looks) <= ssh.looks
      ensures var calls, looks := ssh.log[|old(ssh.log)|..], ssh.looks[|old(ssh.looks)|..];
              if r.Ok? then
                && Turns(old(forwards), cancelled, old(ssh.free), looks, calls, order, started)
                && Lists(order, EnabledIds(old(forwards))) && Moved(forwards, order, started)
              else ReplayFailed(old(forwards), cancelled, old(ssh.free), looks, calls, order, started, stuck, r.error)
    {
      hide *;
      ghost var s, log, looks := forwards, ssh.log, ssh.looks;
      var failure, restored, begun;
      ghost var tunnels;
      failure, restored, begun, tunnels, order, stuck := ReplayAll(cancelled);
      started := begun;
      Unfold();
      if failure.Some? {
        ghost var calls, seen := ssh.log, ssh.looks;
        CancelOpened(begun, old(ssh.live), tunnels, log);
        CleanedUp(forwards, cancelled, old(ssh.free), log, calls, ssh.log, looks, seen, ssh.looks, order, started,
                  stuck, failure.value);
        return Err(failure.value), order, started, stuck;
      }
      ReplayComplete(forwards, restored, tunnels);
      ReplayedKeepsEntries(forwards, restored, next);
      TruthfulIsExact(restored, tunnels);
      ExtendsMeans(old(ssh.live), tunnels, ssh.live);
      forwards := restored;
      Unfold();
      return Ok(()), order, started, stuck;
    }

    /** The replaying loop; it stops at the first failure. */
    method ReplayAll(cancelled: nat -> bool)
      returns (failure: Option<Error>, restored: Forwards, started: seq<Forward>, ghost tunnels: Tunnels,
               ghost order: seq<string>, ghost stuck: string)
      modifies ssh`live, ssh`free, ssh`log, ssh`looks
      ensures Extends(old(ssh.live), tunnels, ssh.live)
      ensures Tracks(started, tunnels)
      ensures failure.None? ==> Replaying(forwards, restored, EnabledIds(forwards), tunnels)
      ensures failure.None? && !ssh.alive ==> EnabledIds(forwards) == {}
      ensures old(ssh.log) <= ssh.log && old(ssh.looks) <= ssh.looks
      ensures var calls, looks := ssh.log[|old(ssh.log)|..], ssh.looks[|old(ssh.looks)|..];
              if failure.None? then
                && Turns(forwards, cancelled, old(ssh.free), looks, calls, order, started)
                && Lists(order, EnabledIds(forwards)) && Moved(restored, order, started)
              else
                ReplayStopped(forwards, cancelled, old(ssh.free), looks, calls, order, started, stuck, failure.value)
    {
      hide *;
      restored, started, failure := forwards, [], None;
      ghost var done: set<string> := {};
      tunnels, order, stuck := map[], [], "";
      var todo := EnabledIds(forwards);
      ghost var base, log, looks, free := ssh.live, ssh.log, ssh.looks, ssh.free;
      ghost var calls: seq<SshCall>, seen: seq<Port -> bool> := [], [];
      ProgressBegins(forwards, cancelled, free, base);
      while todo != {}
        invariant Progress(forwards, restored, todo, done, base, tunnels, ssh.live, cancelled, free, seen, calls, order,
                    started)
        invariant ssh.log == log + calls && ssh.looks == looks + seen
        invariant ssh.free == Look(free, seen, |seen|)
        invariant done != {} ==> ssh.alive
        decreases |todo|
      {
        var id :| id in todo;
        ProgressMeans(forwards, restored, todo, done, base, tunnels, ssh.live, cancelled, free, seen, calls, order,
                      started, id);
        var turn;
        ghost var live, last, seenLast;
        live := ssh.live;
        turn, last, seenLast := TakeTurn(restored[id], id, |started|, cancelled, base, tunnels);
        if turn.Err? {
          failure, stuck := Some(turn.error), id;
          Stopped(forwards, cancelled, free, looks, seen, log, calls, order, started, stuck, turn.error, last,
                  seenLast);
          return;
        }
        var f := turn.value;
        ProgressOneMore(forwards, restored, todo, done, base, tunnels, live, ssh.live, cancelled, free, seen, calls,
                        order, started, id, f, ssh.free);
        todo, restored, started := todo - {id}, restored[id := f], started + [f];
        done, tunnels, order := done + {id}, tunnels[f.localPort := Target(f)], order + [id];
        calls, seen := calls + [Open(f.localPort, Target(f), true)], seen + [ssh.free];
      }
      ProgressEnds(forwards, restored, done, base, tunnels, ssh.live, cancelled, free, seen, calls, order, started);
    }

    /** The turn of one enabled entry. */
    method TakeTurn(f: Forward, id: string, n: nat, cancelled: nat -> bool, ghost base: Tunnels, ghost tunnels: Tunnels)
      returns (r: Result<Forward, Error>, ghost calls: seq<SshCall>, ghost looks: seq<Port -> bool>)
      requires id in EnabledIds(forwards) && f == forwards[id] && Extends(base, tunnels, ssh.live)
      modifies ssh`live, ssh`free, ssh`log, ssh`looks
      ensures ssh.log == old(ssh.log) + calls && ssh.looks == old(ssh.looks) + looks && |looks| == |calls|
      ensures r.Err? ==> ssh.live == old(ssh.live)
      ensures r.Err? ==> TurnFailed(forwards, id, r.error, cancelled(n), old(ssh.free), calls)
      ensures r.Ok? ==>
                && ssh.alive && calls == [Open(r.value.localPort, Target(r.value), true)] && looks == [ssh.free]
                && Turn(forwards, id, r.value, cancelled(n), old(ssh.free),
                        Open(r.value.localPort, Target(r.value), true))
                && ReplayedEntry(f, r.value) && r.value.localPort !in tunnels
                && Extends(base, tunnels[r.value.localPort := Target(r.value)], ssh.live)
    {
      hide *;
      calls, looks := [], [];
      TurnFails(forwards, id, cancelled(n), ssh.free);
      if cancelled(n) {
        return Err(RecoveryCancelled), calls, looks;
      }
      EnabledMember(forwards, id);
      var port := FirstUsable(forwards, Some(id), ssh.free, f.localPort);
      if port.None? {
        return Err(NoLocalPort), calls, looks;
      }
      ghost var before, free := ssh.live, ssh.free;
      var ok := ssh.Forward(port.value, Target(f));
      calls, looks := [Open(port.value, Target(f), ok)], [ssh.free];
      if !ok {
        return Err(ForwardFailed), calls, looks;
      }
      ExtendsOneMore(base, tunnels, before, port.value, Target(f));
      var now := Now();
      var g := f.(localPort := port.value, tunnelOpenedAt := now);
      TurnReplays(f, g);
      TurnTaken(forwards, id, g, cancelled(n), free);
      r := Ok(g);
    }

    /** The clean-up of a replay that failed: errors are ignored. */
    method CancelOpened(started: seq<Forward>, ghost base: Tunnels, ghost tunnels: Tunnels, ghost log: seq<SshCall>)
      requires Extends(base, tunnels, ssh.live)
      requires Tracks(started, tunnels) && log <= ssh.log
      modifies ssh`live, ssh`free, ssh`log, ssh`looks
      ensures forall p :: p in base ==> p in ssh.live && ssh.live[p] == base[p]
      ensures forall p :: p in ssh.live && p !in base ==> CloseFailed(log, ssh.log, p)
      ensures old(ssh.log) <= ssh.log && AskToClose(ssh.log[|old(ssh.log)|..], started)
      ensures old(ssh.looks) <= ssh.looks && |ssh.looks| == |old(ssh.looks)| + |started|
    {
      hide CloseFailed, AskToClose, Listed;
      ghost var begin := |ssh.log|;
      NothingAsked(started);
      assert ssh.log[begin..] == [];
      AllListed(started, tunnels);
      for n := 0 to |started|
        invariant log <= old(ssh.log) <= ssh.log && AskToClose(ssh.log[begin..], started[..n])
        invariant old(ssh.looks) <= ssh.looks && |ssh.looks| == |old(ssh.looks)| + n
        invariant forall p :: p in base ==> p in ssh.live && ssh.live[p] == base[p]
        invariant forall p :: p in ssh.live && p !in base ==> p in tunnels && ssh.live[p] == tunnels[p]
        invariant forall p :: p in ssh.live && p !in base ==> Listed(started[n..], p) || CloseFailed(log, ssh.log, p)
      {
        var f := started[n];
        ghost var before := ssh.log;
        var ok := ssh.Cancel(f.localPort, Target(f));
        CloseFailedOneMore(log, before, ssh.log, f.localPort);
        assert ssh.log[begin..] == before[begin..] + [Close(f.localPort, Target(f), ok)];
        AskedOneMore(before[begin..], started, n, ok);
        ListedOneLess(started, n);
      }
      assert started[..|started|] == started;
    }
  }

  /** The listed entries have been removed, except the stuck ones, and SSH was asked
      about each of them that was enabled. */
  ghost predicate ClosedSoFar(s: State, now: State, log: seq<SshCall>, later: seq<SshCall>, ids: seq<string>,
                              stuck: set<string>) {
    now == CloseAll(s, ids, stuck) && later == log + CloseAllAsks(s, ids, stuck)
  }

  lemma CloseOneMore(s: State, before: State, log: seq<SshCall>, called: seq<SshCall>, ids: seq<string>,
                     stuck: set<string>, id: string, cancels: bool)
    requires ClosedSoFar(s, before, log, called, ids, stuck) && id !in ids && id !in stuck
    requires id in before.forwards && id in s.forwards && before.forwards[id] == s.forwards[id]
    ensures ClosedSoFar(s, Remove(before, id, cancels).0, log, called + RemoveAsks(before, id, cancels),
                        ids + [id], if cancels then stuck else stuck + {id})
  {
    hide Remove, CloseAll, CloseAllAsks;
    CloseAllOneMore(s, ids, stuck, id);
  }

  /** Part way through closing everything: every id is still to be visited or in the list;
      the entries to be visited and the stuck ones are still there. */
  ghost predicate Visiting(all: Forwards, left: Forwards, todo: set<string>, ids: seq<string>, errors: seq<string>,
                           stuck: set<string>) {
    && (forall id :: id in all <==> id in ids || id in todo) && (forall id :: id in todo ==> id !in ids)
    && Distinct(ids) && Distinct(errors) && (forall id :: id in errors <==> id in stuck)
    && stuck !! todo && (forall id :: id in left <==> id in todo || id in stuck)
    && forall id :: id in todo ==> left[id] == all[id]
  }

  lemma ClosingBegins(s: State, log: seq<SshCall>, stuck: set<string>)
    ensures ClosedSoFar(s, s, log, log, [], stuck) && Visiting(s.forwards, s.forwards, s.forwards.Keys, [], [], {})
  {
    CloseAllBegins(s, stuck);
  }

  lemma ClosingEnds(s: State, now: State, log: seq<SshCall>, later: seq<SshCall>, ids: seq<string>,
                    errors: seq<string>, stuck: set<string>)
    requires ClosedSoFar(s, now, log, later, ids, stuck) && Visiting(s.forwards, now.forwards, {}, ids, errors, stuck)
    ensures now == CloseAll(s, ids, stuck) && later == log + CloseAllAsks(s, ids, stuck)
    ensures (forall id :: id in s.forwards <==> id in ids) && Distinct(ids) && Distinct(errors)
    ensures forall id :: id in errors <==> id in now.forwards
  {
  }

  lemma VisitingMeans(all: Forwards, left: Forwards, todo: set<string>, ids: seq<string>, errors: seq<string>,
                      stuck: set<string>, id: string)
    requires Visiting(all, left, todo, ids, errors, stuck) && id in todo
    ensures id in all && id in left && left[id] == all[id] && id !in ids && id !in stuck
  {
  }

  lemma VisitingOneMore(all: Forwards, left: Forwards, todo: set<string>, ids: seq<string>, errors: seq<string>,
                        stuck: set<string>, id: string)
    requires Visiting(all, left, todo, ids, errors, stuck) && id in todo
    ensures Visiting(all, left, todo - {id}, ids + [id], errors + [id], stuck + {id})
    ensures Visiting(all, left - {id}, todo - {id}, ids + [id], errors, stuck)
  {
  }

  /** A replay that failed: the turns it took, why the next one failed, and then one
      request to close each tunnel it had opened. */
  ghost predicate ReplayFailed(fw: Forwards, cancelled: nat -> bool, free: Port -> bool, looks: seq<Port -> bool>,
                               calls: seq<SshCall>, order: seq<string>, started: seq<Forward>, stuck: string,
                               e: Error) {
    var n := |calls| - |started|;
    && 0 <= n <= |looks|
    && ReplayStopped(fw, cancelled, free, looks[..n], calls[..n], order, started, stuck, e)
    && AskToClose(calls[n..], started)
  }

  lemma CleanedUp(fw: Forwards, cancelled: nat -> bool, free: Port -> bool,
                  log: seq<SshCall>, middle: seq<SshCall>, later: seq<SshCall>,
                  looks: seq<Port -> bool>, seen: seq<Port -> bool>, looked: seq<Port -> bool>,
                  order: seq<string>, started: seq<Forward>, stuck: string, e: Error)
    requires log <= middle <= later && looks <= seen <= looked
    requires ReplayStopped(fw, cancelled, free, seen[|looks|..], middle[|log|..], order, started, stuck, e)
    requires AskToClose(later[|middle|..], started)
    ensures ReplayFailed(fw, cancelled, free, looked[|looks|..], later[|log|..], order, started, stuck, e)
  {
    hide Turns, TurnFailed;
    var calls, n := later[|log|..], |middle| - |log|;
    assert calls[..n] == middle[|log|..] && calls[n..] == later[|middle|..];
    assert looked[|looks|..][..n] == seen[|looks|..];
  }

  lemma Stopped(fw: Forwards, cancelled: nat -> bool, free: Port -> bool, looks: seq<Port -> bool>,
                seen: seq<Port -> bool>, log: seq<SshCall>, calls: seq<SshCall>, order: seq<string>,
                started: seq<Forward>, stuck: string, e: Error, last: seq<SshCall>, look: seq<Port -> bool>)
    requires Turns(fw, cancelled, free, seen, calls, order, started) && stuck !in order
    requires TurnFailed(fw, stuck, e, cancelled(|started|), Look(free, seen, |seen|), last) && |look| == |last|
    ensures ReplayStopped(fw, cancelled, free, (looks + seen + look)[|looks|..], (log + calls + last)[|log|..],
                          order, started, stuck, e)
  {
    hide Turn, TurnFailed;
    assert (looks + seen + look)[|looks|..] == seen + look && (seen + look)[..|seen|] == seen;
    assert (log + calls + last)[|log|..] == calls + last;
    assert (calls + last)[..|calls|] == calls && (calls + last)[|calls|..] == last;
  }

  /** The three ways a turn may fail. */
  lemma TurnFails(fw: Forwards, id: string, cancelled: bool, free: Port -> bool)
    requires id in EnabledIds(fw)
    ensures var port := FirstUsable(fw, Some(id), free, fw[id].localPort);
            && (cancelled ==> TurnFailed(fw, id, RecoveryCancelled, cancelled, free, []))
            && (!cancelled && port.None? ==> TurnFailed(fw, id, NoLocalPort, cancelled, free, []))
            && (!cancelled && port.Some? ==>
                  TurnFailed(fw, id, ForwardFailed, cancelled, free, [Open(port.value, Target(fw[id]), false)]))
  {
    hide FirstUsable;
  }

  lemma TurnTaken(fw: Forwards, id: string, f: Forward, cancelled: bool, free: Port -> bool)
    requires id in EnabledIds(fw) && !cancelled
    requires FirstUsable(fw, Some(id), free, fw[id].localPort) == Some(f.localPort)
    requires f == fw[id].(localPort := f.localPort, tunnelOpenedAt := f.tunnelOpenedAt)
    ensures Turn(fw, id, f, cancelled, free, Open(f.localPort, Target(f), true))
  {
    hide FirstUsable;
  }

  /** Part way through the replaying loop. */
  ghost predicate Progress(fw: Forwards, restored: Forwards, todo: set<string>, done: set<string>, base: Tunnels,
                           tunnels: Tunnels, live: Tunnels, cancelled: nat -> bool, free: Port -> bool,
                           seen: seq<Port -> bool>, calls: seq<SshCall>, order: seq<string>, started: seq<Forward>) {
    && todo <= EnabledIds(fw) && Divided(EnabledIds(fw), todo, done, {})
    && Replaying(fw, restored, done, tunnels) && Extends(base, tunnels, live) && Tracks(started, tunnels)
    && Turns(fw, cancelled, free, seen, calls, order, started) && Moved(restored, order, started)
    && Tried(order, done, {})
  }

  lemma ProgressBegins(fw: Forwards, cancelled: nat -> bool, free: Port -> bool, base: Tunnels)
    ensures Progress(fw, fw, EnabledIds(fw), {}, base, map[], base, cancelled, free, [], [], [], [])
    ensures Look(free, [], 0) == free
  {
    ReplayBegins(fw, base);
    TracksNothing();
    NoTurnsYet(fw, cancelled, free);
    NoneTried(fw, []);
  }

  /** The entry whose turn comes next. */
  lemma ProgressMeans(fw: Forwards, restored: Forwards, todo: set<string>, done: set<string>, base: Tunnels,
                      tunnels: Tunnels, live: Tunnels, cancelled: nat -> bool, free: Port -> bool,
                      seen: seq<Port -> bool>, calls: seq<SshCall>, order: seq<string>, started: seq<Forward>,
                      id: string)
    requires Progress(fw, restored, todo, done, base, tunnels, live, cancelled, free, seen, calls, order, started)
    requires id in todo
    ensures id in EnabledIds(fw) && id in restored && restored[id] == fw[id] && id !in order
    ensures |seen| == |started| && Extends(base, tunnels, live) && Tracks(started, tunnels)
    ensures Turns(fw, cancelled, free, seen, calls, order, started)
  {
    hide Replaying, Extends, Tracks, Turn, Moved;
    NotReplayedYet(fw, restored, todo, done, tunnels, id);
    TriedOneMore(EnabledIds(fw), todo, order, done, {}, id);
  }

  lemma ProgressOneMore(fw: Forwards, restored: Forwards, todo: set<string>, done: set<string>, base: Tunnels,
                        tunnels: Tunnels, before: Tunnels, live: Tunnels, cancelled: nat -> bool, free: Port -> bool,
                        seen: seq<Port -> bool>, calls: seq<SshCall>, order: seq<string>, started: seq<Forward>,
                        id: string, f: Forward, look: Port -> bool)
    requires Progress(fw, restored, todo, done, base, tunnels, before, cancelled, free, seen, calls, order, started)
    requires id in todo && |seen| == |started| && f.localPort !in tunnels && ReplayedEntry(fw[id], f)
    requires Turn(fw, id, f, cancelled(|started|), Look(free, seen, |seen|), Open(f.localPort, Target(f), true))
    requires Extends(base, tunnels[f.localPort := Target(f)], live)
    ensures Progress(fw, restored[id := f], todo - {id}, done + {id}, base, tunnels[f.localPort := Target(f)], live,
                     cancelled, free, seen + [look], calls + [Open(f.localPort, Target(f), true)], order + [id],
                     started + [f])
    ensures Look(free, seen + [look], |seen| + 1) == look
  {
    hide Replaying, Extends, Tracks, Turn, Turns, Moved, Tried, ReplayedEntry, Divided;
    DividedOneLess(EnabledIds(fw), todo, done, {}, id);
    TriedOneMore(EnabledIds(fw), todo, order, done, {}, id);
    NotReplayedYet(fw, restored, todo, done, tunnels, id);
    ReplayOneMore(fw, restored, done, tunnels, id, f);
    OneMoreTurn(fw, cancelled, free, seen, calls, order, started, restored, id, f, look,
                Open(f.localPort, Target(f), true));
    TracksOneMore(started, tunnels, f);
  }

  lemma ProgressEnds(fw: Forwards, restored: Forwards, done: set<string>, base: Tunnels,
                     tunnels: Tunnels, live: Tunnels, cancelled: nat -> bool, free: Port -> bool,
                     seen: seq<Port -> bool>, calls: seq<SshCall>, order: seq<string>, started: seq<Forward>)
    requires Progress(fw, restored, {}, done, base, tunnels, live, cancelled, free, seen, calls, order, started)
    ensures done == EnabledIds(fw) && Lists(order, EnabledIds(fw))
    ensures Replaying(fw, restored, EnabledIds(fw), tunnels) && Extends(base, tunnels, live) && Tracks(started, tunnels)
    ensures Turns(fw, cancelled, free, seen, calls, order, started) && Moved(restored, order, started)
  {
    hide Replaying, Extends, Tracks, Turns, Moved, Tried, Lists, Divided;
    DividedAtTheEnd(EnabledIds(fw), done, {});
    TriedAll(EnabledIds(fw), order, done, {});
  }

  lemma ExtendsMeans(base: Tunnels, more: Tunnels, live: Tunnels)
    requires Extends(base, more, live)
    ensures live == base + more && more.Keys !! base.Keys
  {
  }

  ghost predicate Listed(fs: seq<Forward>, p: Port) { exists i :: 0 <= i < |fs| && fs[i].localPort == p }

  /** The list holds exactly the forwards of these tunnels. */
  ghost predicate Tracks(started: seq<Forward>, tunnels: Tunnels) {
    && (forall p :: p in tunnels ==> Listed(started, p))
    && forall i :: 0 <= i < |started| ==>
         started[i].localPort in tunnels && tunnels[started[i].localPort] == Target(started[i])
  }

  lemma NothingAsked(fs: seq<Forward>)
    ensures AskToClose([], fs[..0])
  {
  }

  lemma AskedOneMore(calls: seq<SshCall>, fs: seq<Forward>, n: nat, ok: bool)
    requires n < |fs| && AskToClose(calls, fs[..n])
    ensures AskToClose(calls + [Close(fs[n].localPort, Target(fs[n]), ok)], fs[..n + 1])
  {
  }

  lemma AllListed(fs: seq<Forward>, tunnels: Tunnels)
    requires Tracks(fs, tunnels)
    ensures forall p :: p in tunnels ==> Listed(fs[0..], p)
    ensures forall p :: !Listed(fs[|fs|..], p)
    ensures forall i :: 0 <= i < |fs| ==>
              fs[i].localPort in tunnels && tunnels[fs[i].localPort] == Target(fs[i])
  {
    assert fs[0..] == fs;
  }

  lemma ListedOneLess(fs: seq<Forward>, n: nat)
    requires n < |fs|
    ensures forall p :: Listed(fs[n..], p) && p != fs[n].localPort ==> Listed(fs[n + 1..], p)
  {
    forall p | Listed(fs[n..], p) && p != fs[n].localPort
      ensures Listed(fs[n + 1..], p)
    {
      var i :| 0 <= i < |fs[n..]| && fs[n..][i].localPort == p;
      assert i > 0 && fs[n + 1..][i - 1] == fs[n..][i];
    }
  }

  lemma TracksNothing()
    ensures Tracks([], map[])
  {
  }

  lemma TracksOneMore(started: seq<Forward>, tunnels: Tunnels, f: Forward)
    requires Tracks(started, tunnels) && f.localPort !in tunnels
    ensures Tracks(started + [f], tunnels[f.localPort := Target(f)])
  {
    var more := started + [f];
    assert more[|started|] == f;
    forall p | p in tunnels
      ensures Listed(more, p)
    {
      var i :| 0 <= i < |started| && started[i].localPort == p;
      assert more[i].localPort == p;
    }
  }

  /** A request to close the tunnel on this port was refused since `log`. */
  ghost predicate CloseFailed(log: seq<SshCall>, later: seq<SshCall>, p: Port) {
    exists i :: |log| <= i < |later| && later[i].Close? && later[i].port == p && !later[i].ok
  }

  lemma CloseFailedOneMore(log: seq<SshCall>, before: seq<SshCall>, after: seq<SshCall>, p: Port)
    requires log <= before && |after| == |before| + 1 && before <= after
    requires after[|before|].Close? && after[|before|].port == p
    ensures forall q :: CloseFailed(log, before, q) ==> CloseFailed(log, after, q)
    ensures !after[|before|].ok ==> CloseFailed(log, after, p)
  {
    forall q | CloseFailed(log, before, q)
      ensures CloseFailed(log, after, q)
    {
      var i :| |log| <= i < |before| && before[i].Close? && before[i].port == q && !before[i].ok;
      assert after[i] == before[i];
    }
  }

  lemma RestoreAsked(fw: Forwards, snapshot: Forwards, cancels: set<string>, opens: set<string>,
                     closing: seq<string>, opening: seq<string>, log: seq<SshCall>, later: seq<SshCall>)
    requires Lists(closing, Unwanted(fw, snapshot)) && Lists(opening, Unwanted(snapshot, fw))
    requires later == log + Closings(fw, closing, cancels) + Openings(snapshot, opening, opens)
    ensures AskedToRestore(fw, snapshot, cancels, opens, log, later)
  {
    assert RestoreCalls(fw, snapshot, cancels, opens, closing, opening, log, later);
  }

  lemma SnapshotFacts(snapshot: Snapshot)
    requires Entries(snapshot.forwards, snapshot.next)
    ensures DistinctPorts(snapshot.forwards) && snapshot.next <= U64_MAX
    ensures forall id :: id in snapshot.forwards ==> snapshot.forwards[id].id == id
  {
  }

  lemma CounterMayGrow(snapshot: Snapshot, next: nat)
    requires Entries(snapshot.forwards, snapshot.next) && snapshot.next <= next <= U64_MAX
    ensures Entries(snapshot.forwards, next)
  {
    IssuedLater(snapshot.forwards, snapshot.next, next);
  }

  lemma RemoveOutcome(s: State, id: string, cancels: bool)
    ensures var (s', r) := RegistrySpec.Remove(s, id, cancels);
            && (r.Err? ==> s' == s && id in s.forwards)
            && (r.Ok? ==> s'.forwards == s.forwards - {id})
  {
  }
}
