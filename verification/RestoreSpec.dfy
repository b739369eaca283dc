/** Going back to a snapshot, and replaying the registry on a new transport
    (`restore` and `restore_tunnels` of src/registry.rs), as relations between the
    states before and after, whatever SSH answers. */
module RestoreSpec {
  import opened Wrappers
  import opened Detect
  import opened RegistrySpec
  import opened RegistryProofs

  /** The tunnels of some enabled entries. */
  function TunnelsOf(fw: Forwards, ids: set<string>): Tunnels
    requires ids <= EnabledIds(fw) && DistinctPorts(fw)
  {
    map id | id in ids :: fw[id].localPort := Target(fw[id])
  }

  function EnabledIds(fw: Forwards): set<string> { set id | id in fw && fw[id].enabled }

  predicate SameTunnel(a: Forward, b: Forward) {
    a.localPort == b.localPort && a.remotePort == b.remotePort && a.remoteHost == b.remoteHost
  }

  predicate HasTunnel(fw: Forwards, f: Forward) {
    exists id :: id in fw && fw[id].enabled && SameTunnel(fw[id], f)
  }

  /** The enabled entries of `fw` whose tunnel `other` does not want. */
  function Unwanted(fw: Forwards, other: Forwards): (ids: set<string>)
    ensures ids <= EnabledIds(fw)
  {
    set id | id in fw && fw[id].enabled && !HasTunnel(other, fw[id])
  }

  /** Some of the entries of `fw` have had their tunnel closed. */
  function Closed(live: Tunnels, fw: Forwards, cancels: set<string>): Tunnels
    requires cancels <= fw.Keys
  {
    map p | p in live && !(exists id :: id in cancels && fw[id].localPort == p && Target(fw[id]) == live[p]) :: live[p]
  }

  /** The entries after closing some tunnels and opening others of the snapshot. */
  function Mixed(fw: Forwards, snapshot: Forwards, cancels: set<string>, opens: set<string>): Forwards
    requires opens <= snapshot.Keys
  {
    map id | id in fw.Keys + opens ::
      if id in opens then snapshot[id] else if id in cancels then Disabled(fw[id]) else fw[id]
  }

  lemma TunnelOf(fw: Forwards, ids: set<string>, p: Port)
    requires ids <= EnabledIds(fw) && DistinctPorts(fw)
    ensures p in TunnelsOf(fw, ids) <==> exists id :: id in ids && fw[id].localPort == p
    ensures forall id :: id in ids && fw[id].localPort == p ==>
              p in TunnelsOf(fw, ids) && TunnelsOf(fw, ids)[p] == Target(fw[id])
  {
  }

  lemma ClaimedByTunnel(fw: Forwards, p: Port)
    requires DistinctPorts(fw)
    ensures Claims(fw, p) <==> p in TunnelsOf(fw, EnabledIds(fw))
  {
    hide TunnelsOf;
    TunnelOf(fw, EnabledIds(fw), p);
  }

  lemma TruthfulHasTunnels(fw: Forwards, live: Tunnels)
    requires DistinctPorts(fw) && Truthful(fw, live)
    ensures live == TunnelsOf(fw, EnabledIds(fw))
  {
    hide TunnelsOf, DistinctPorts;
    var t := TunnelsOf(fw, EnabledIds(fw));
    forall p: Port
      ensures p in live <==> p in t
      ensures p in live ==> live[p] == t[p]
    {
      TunnelOf(fw, EnabledIds(fw), p);
    }
  }

  lemma TunnelsAreTruthful(fw: Forwards)
    requires DistinctPorts(fw)
    ensures Truthful(fw, TunnelsOf(fw, EnabledIds(fw)))
  {
    hide TunnelsOf, DistinctPorts;
    forall p: Port
      ensures p in TunnelsOf(fw, EnabledIds(fw)) ==> Claims(fw, p)
    {
      ClaimedByTunnel(fw, p);
    }
    forall id | id in fw && fw[id].enabled
      ensures var t := TunnelsOf(fw, EnabledIds(fw)); fw[id].localPort in t && t[fw[id].localPort] == Target(fw[id])
    {
      TunnelOf(fw, EnabledIds(fw), fw[id].localPort);
    }
  }

  lemma TruthfulIsExact(fw: Forwards, live: Tunnels)
    requires DistinctPorts(fw)
    ensures Truthful(fw, live) <==> live == TunnelsOf(fw, EnabledIds(fw))
  {
    hide Truthful, TunnelsOf, DistinctPorts;
    TunnelsAreTruthful(fw);
    if Truthful(fw, live) {
      TruthfulHasTunnels(fw, live);
    }
  }

  /** What an attempt to restore leaves behind, given the calls that succeeded. */
  ghost predicate Possible(live: Tunnels, fw: Forwards, snapshot: Forwards, cancels: set<string>,
                           opens: set<string>) {
    && cancels <= Unwanted(fw, snapshot)
    && opens <= Unwanted(snapshot, fw)
    && forall id :: id in opens ==> snapshot[id].localPort !in Closed(live, fw, cancels)
  }

  function LiveAfter(live: Tunnels, fw: Forwards, snapshot: Forwards, cancels: set<string>,
                     opens: set<string>): Tunnels
    requires DistinctPorts(snapshot)
    requires cancels <= Unwanted(fw, snapshot) && opens <= Unwanted(snapshot, fw)
  {
    Closed(live, fw, cancels) + TunnelsOf(snapshot, opens)
  }

  /** One attempt to restore `snapshot` (taken when the counter was `next`): which
      calls succeeded decides what the registry and the transport look like. */
  ghost predicate RestoreStep(s: State, snapshot: Forwards, next: nat,
                              ok: bool, cancels: set<string>, opens: set<string>, s': State)
    requires DistinctPorts(snapshot)
  {
    && Possible(s.live, s.forwards, snapshot, cancels, opens)
    && (ok <==> cancels == Unwanted(s.forwards, snapshot) && opens == Unwanted(snapshot, s.forwards))
    && s'.live == LiveAfter(s.live, s.forwards, snapshot, cancels, opens)
    && s'.forwards == (if ok then snapshot else Mixed(s.forwards, snapshot, cancels, opens))
    && s'.next == (if ok && next > s.next then next else s.next)
  }

  /** In a truthful registry a wanted tunnel is neither closed nor reopened. */
  lemma CommonTunnelIsUntouched(fw: Forwards, snapshot: Forwards, a: string, b: string)
    requires DistinctPorts(fw) && DistinctPorts(snapshot)
    requires a in EnabledIds(fw) && b in EnabledIds(snapshot) && SameTunnel(fw[a], snapshot[b])
    ensures forall id :: id in Unwanted(fw, snapshot) ==> fw[id].localPort != fw[a].localPort
    ensures forall id :: id in Unwanted(snapshot, fw) ==> snapshot[id].localPort != fw[a].localPort
  {
    assert HasTunnel(snapshot, fw[a]) && HasTunnel(fw, snapshot[b]);
  }

  lemma RestoredTunnelIsWanted(s: State, snapshot: Forwards, p: Port)
    requires Inv(s) && DistinctPorts(snapshot)
    requires p in LiveAfter(s.live, s.forwards, snapshot, Unwanted(s.forwards, snapshot), Unwanted(snapshot,
               s.forwards))
    ensures Claims(snapshot, p)
  {
    var fw := s.forwards;
    var opens := Unwanted(snapshot, fw);
    if p in TunnelsOf(snapshot, opens) {
      var id :| id in opens && snapshot[id].localPort == p;
    } else {
      assert Claims(fw, p);
      var id :| id in fw && fw[id].enabled && fw[id].localPort == p;
      assert HasTunnel(snapshot, fw[id]);
    }
  }

  /** Every call succeeded: exactly the snapshot's tunnels are open. */
  lemma RestoredExactly(s: State, snapshot: Forwards, next: nat, cancels: set<string>, opens: set<string>, s': State)
    requires Inv(s) && Entries(snapshot, next)
    requires RestoreStep(s, snapshot, next, true, cancels, opens, s')
    ensures Inv(s') && s'.forwards == snapshot && s.next <= s'.next
    ensures s'.live == TunnelsOf(snapshot, EnabledIds(snapshot))
  {
    hide LiveAfter, Claims, Named, DistinctTargets, DistinctPorts;
    forall id | id in snapshot && snapshot[id].enabled
      ensures snapshot[id].localPort in s'.live && s'.live[snapshot[id].localPort] == Target(snapshot[id])
    {
      KeptOrOpened(s, snapshot, id);
    }
    forall p | p in s'.live
      ensures Claims(snapshot, p)
    {
      RestoredTunnelIsWanted(s, snapshot, p);
    }
    IssuedLater(snapshot, next, s'.next);
    TruthfulIsExact(snapshot, s'.live);
  }

  /** Every call succeeded: every enabled entry of the snapshot has its tunnel, even
      when stray tunnels were open before. */
  lemma RestoredIsBacked(s: State, snapshot: Forwards, next: nat, cancels: set<string>, opens: set<string>, s': State)
    requires DistinctPorts(s.forwards) && Backed(s.forwards, s.live) && DistinctPorts(snapshot)
    requires RestoreStep(s, snapshot, next, true, cancels, opens, s')
    ensures Backed(snapshot, s'.live)
  {
    hide LiveAfter, DistinctPorts;
    forall id | id in snapshot && snapshot[id].enabled
      ensures snapshot[id].localPort in s'.live && s'.live[snapshot[id].localPort] == Target(snapshot[id])
    {
      KeptOrOpened(s, snapshot, id);
    }
  }

  lemma KeptOrOpened(s: State, snapshot: Forwards, id: string)
    requires DistinctPorts(s.forwards) && Backed(s.forwards, s.live) && DistinctPorts(snapshot) &&
             id in EnabledIds(snapshot)
    ensures var cancels, opens := Unwanted(s.forwards, snapshot), Unwanted(snapshot, s.forwards);
            var after := LiveAfter(s.live, s.forwards, snapshot, cancels, opens);
            snapshot[id].localPort in after && after[snapshot[id].localPort] == Target(snapshot[id])
  {
    var fw := s.forwards;
    var cancels, opens := Unwanted(fw, snapshot), Unwanted(snapshot, fw);
    if id in opens {
      assert snapshot[id].localPort in TunnelsOf(snapshot, opens);
    } else {
      assert HasTunnel(fw, snapshot[id]);
      var a :| a in fw && fw[a].enabled && SameTunnel(fw[a], snapshot[id]);
      CommonTunnelIsUntouched(fw, snapshot, a, id);
      assert snapshot[id].localPort in Closed(s.live, fw, cancels);
      assert snapshot[id].localPort !in TunnelsOf(snapshot, opens);
    }
  }

  /** An entry never changes its endpoint, so a snapshot agrees with the registry on
      the endpoints of the ids they share. */
  ghost predicate SameTargets(fw: Forwards, snapshot: Forwards) {
    forall id :: id in fw && id in snapshot ==> Target(fw[id]) == Target(snapshot[id])
  }

  lemma UntouchedTunnelStays(s: State, snapshot: Forwards, cancels: set<string>, opens: set<string>, id: string)
    requires DistinctPorts(s.forwards) && Backed(s.forwards, s.live) && DistinctPorts(snapshot)
    requires Possible(s.live, s.forwards, snapshot, cancels, opens)
    requires id in EnabledIds(s.forwards) - cancels
    ensures var p := s.forwards[id].localPort;
            && p in Closed(s.live, s.forwards, cancels) && p !in TunnelsOf(snapshot, opens)
            && s.live[p] == Target(s.forwards[id])
  {
    var p := s.forwards[id].localPort;
    assert p in Closed(s.live, s.forwards, cancels);
    assert forall other :: other in opens ==> snapshot[other].localPort != p;
  }

  /** Some calls failed: every enabled entry still has its tunnel. */
  lemma PartlyRestored(s: State, snapshot: Forwards, cancels: set<string>, opens: set<string>)
    requires DistinctPorts(s.forwards) && Backed(s.forwards, s.live) && DistinctPorts(snapshot)
    requires Possible(s.live, s.forwards, snapshot, cancels, opens)
    ensures Backed(Mixed(s.forwards, snapshot, cancels, opens),
                   LiveAfter(s.live, s.forwards, snapshot, cancels, opens))
  {
    hide Entries, Truthful, DistinctPorts;
    var fw' := Mixed(s.forwards, snapshot, cancels, opens);
    var live' := LiveAfter(s.live, s.forwards, snapshot, cancels, opens);
    forall id | id in fw' && fw'[id].enabled
      ensures fw'[id].localPort in live' && live'[fw'[id].localPort] == Target(fw'[id])
    {
      if id in opens {
        OpenedTunnel(snapshot, opens, id);
      } else {
        UntouchedTunnelStays(s, snapshot, cancels, opens, id);
      }
    }
  }

  lemma OpenedTunnel(fw: Forwards, ids: set<string>, id: string)
    requires DistinctPorts(fw) && ids <= EnabledIds(fw) && id in ids
    ensures fw[id].localPort in TunnelsOf(fw, ids) && TunnelsOf(fw, ids)[fw[id].localPort] == Target(fw[id])
  {
  }

  /** The tunnels that outlive their entry: those of entries the snapshot's version
      replaced although their own tunnel could not be closed. */
  ghost predicate Outlived(fw: Forwards, snapshot: Forwards, cancels: set<string>, opens: set<string>, p: Port) {
    exists id :: id in opens && id in Unwanted(fw, snapshot) - cancels && fw[id].localPort == p
  }

  ghost function OutlivedTunnels(s: State, snapshot: Forwards, cancels: set<string>, opens: set<string>): Tunnels {
    map p | p in s.live && Outlived(s.forwards, snapshot, cancels, opens, p) :: s.live[p]
  }

  lemma ClosedTunnels(s: State, cancels: set<string>, p: Port)
    requires DistinctPorts(s.forwards) && Backed(s.forwards, s.live) && cancels <= EnabledIds(s.forwards)
    ensures p in Closed(s.live, s.forwards, cancels) <==>
              p in s.live && !exists id :: id in cancels && s.forwards[id].localPort == p
    ensures p in Closed(s.live, s.forwards, cancels) ==> Closed(s.live, s.forwards, cancels)[p] == s.live[p]
  {
    if p in s.live && !(p in Closed(s.live, s.forwards, cancels)) {
      var id :| id in cancels && s.forwards[id].localPort == p && Target(s.forwards[id]) == s.live[p];
    }
    if id :| id in cancels && s.forwards[id].localPort == p {
      assert s.live[p] == Target(s.forwards[id]);
    }
  }

  lemma TunnelsAfter(s: State, snapshot: Forwards, cancels: set<string>, opens: set<string>, p: Port)
    requires DistinctPorts(s.forwards) && Backed(s.forwards, s.live) && DistinctPorts(snapshot)
    requires Possible(s.live, s.forwards, snapshot, cancels, opens)
    ensures var after := LiveAfter(s.live, s.forwards, snapshot, cancels, opens);
            var added := exists id :: id in opens && snapshot[id].localPort == p;
            var kept := p in s.live && !exists id :: id in cancels && s.forwards[id].localPort == p;
            (p in after <==> added || kept) && !(added && kept) && (kept ==> p in after && after[p] == s.live[p])
  {
    hide Closed, TunnelsOf, DistinctPorts, Backed;
    ClosedTunnels(s, cancels, p);
    TunnelOf(snapshot, opens, p);
  }

  /** Some calls failed: which tunnels have no entry now. */
  lemma UnclaimedAfterFailure(s: State, snapshot: Forwards, cancels: set<string>, opens: set<string>, p: Port)
    requires DistinctPorts(s.forwards) && Backed(s.forwards, s.live) && DistinctPorts(snapshot)
    requires DistinctTargets(snapshot) && SameTargets(s.forwards, snapshot)
    requires Possible(s.live, s.forwards, snapshot, cancels, opens)
    ensures var fw' := Mixed(s.forwards, snapshot, cancels, opens);
            p in LiveAfter(s.live, s.forwards, snapshot, cancels, opens) && !Claims(fw', p) <==>
            p in s.live && (!Claims(s.forwards, p) || Outlived(s.forwards, snapshot, cancels, opens, p))
  {
    hide LiveAfter, DistinctTargets, SameTargets, Backed, Closed;
    var fw := s.forwards;
    var fw' := Mixed(fw, snapshot, cancels, opens);
    TunnelsAfter(s, snapshot, cancels, opens, p);
    if id :| id in opens && snapshot[id].localPort == p {
      assert id in fw' && fw'[id].enabled;
      assert Claims(fw', p);
    } else if Claims(fw, p) {
      var id :| id in fw && fw[id].enabled && fw[id].localPort == p;
      assert id in fw';
      if id in opens {
        ReplacedEntryIsUnwanted(fw, snapshot, id);
      } else if id !in cancels {
        assert fw'[id] == fw[id];
        assert Claims(fw', p);
      }
    }
  }

  /** Every call succeeded: none that had one before. */
  lemma UnclaimedAfterSuccess(s: State, snapshot: Forwards, p: Port)
    requires DistinctPorts(s.forwards) && Backed(s.forwards, s.live) && DistinctPorts(snapshot)
    requires Possible(s.live, s.forwards, snapshot, Unwanted(s.forwards, snapshot), Unwanted(snapshot, s.forwards))
    ensures var cancels, opens := Unwanted(s.forwards, snapshot), Unwanted(snapshot, s.forwards);
            p in LiveAfter(s.live, s.forwards, snapshot, cancels, opens) && !Claims(snapshot, p) <==>
            p in s.live && !Claims(s.forwards, p)
  {
    hide LiveAfter, DistinctPorts, Backed, Closed;
    var fw := s.forwards;
    TunnelsAfter(s, snapshot, Unwanted(fw, snapshot), Unwanted(snapshot, fw), p);
    if Claims(fw, p) {
      var id :| id in fw && fw[id].enabled && fw[id].localPort == p;
      assert HasTunnel(snapshot, fw[id]) ==> Claims(snapshot, p);
    }
    if Claims(snapshot, p) {
      var id :| id in snapshot && snapshot[id].enabled && snapshot[id].localPort == p;
      assert HasTunnel(fw, snapshot[id]) ==> Claims(fw, p);
    }
  }

  /** After a rollback, the tunnels without an entry are exactly those that had none
      before and those that outlived their entry; when every call succeeded, none did. */
  lemma UnclaimedAfterRestore(s: State, snapshot: Forwards, next: nat, ok: bool, cancels: set<string>,
                              opens: set<string>, s': State)
    requires DistinctPorts(s.forwards) && Backed(s.forwards, s.live) && DistinctPorts(snapshot)
    requires DistinctTargets(snapshot) && SameTargets(s.forwards, snapshot)
    requires RestoreStep(s, snapshot, next, ok, cancels, opens, s')
    ensures Unclaimed(s'.forwards, s'.live) ==
            Unclaimed(s.forwards, s.live) + OutlivedTunnels(s, snapshot, cancels, opens)
    ensures ok ==> OutlivedTunnels(s, snapshot, cancels, opens) == map[]
  {
    hide LiveAfter, Mixed, Possible, DistinctPorts, DistinctTargets, SameTargets, Backed, Claims;
    forall p: Port
      ensures p in s'.live && !Claims(s'.forwards, p) <==>
              p in s.live && (!Claims(s.forwards, p) || Outlived(s.forwards, snapshot, cancels, opens, p))
      ensures p in s'.live && !Claims(s'.forwards, p) ==> s'.live[p] == s.live[p]
    {
      if ok {
        UnclaimedAfterSuccess(s, snapshot, p);
      } else {
        UnclaimedAfterFailure(s, snapshot, cancels, opens, p);
      }
      UnclaimedValue(s, snapshot, next, ok, cancels, opens, s', p);
    }
  }

  lemma UnclaimedValue(s: State, snapshot: Forwards, next: nat, ok: bool, cancels: set<string>,
                       opens: set<string>, s': State, p: Port)
    requires DistinctPorts(s.forwards) && Backed(s.forwards, s.live) && DistinctPorts(snapshot)
    requires RestoreStep(s, snapshot, next, ok, cancels, opens, s')
    ensures p in s'.live && p in s.live && !Claims(s'.forwards, p) ==> s'.live[p] == s.live[p]
  {
    hide LiveAfter, DistinctPorts, Backed, Closed;
    TunnelsAfter(s, snapshot, cancels, opens, p);
    forall id | id in opens
      ensures snapshot[id].localPort == p ==> Claims(s'.forwards, p)
    {
      assert s'.forwards[id] == snapshot[id];
    }
  }

  lemma TruthfulHasNoStrays(fw: Forwards, live: Tunnels)
    ensures Truthful(fw, live) <==> Backed(fw, live) && Unclaimed(fw, live) == map[]
  {
    hide Backed, Claims;
    if Unclaimed(fw, live) == map[] {
      forall p | p in live
        ensures Claims(fw, p)
      {
        assert p !in Unclaimed(fw, live);
      }
    }
  }

  /** The open tunnels are those of the enabled entries and, on other ports, the strays. */
  lemma UnclaimedIsExact(fw: Forwards, live: Tunnels)
    requires DistinctPorts(fw) && Backed(fw, live)
    ensures var wanted := TunnelsOf(fw, EnabledIds(fw));
            live == wanted + Unclaimed(fw, live) && wanted.Keys !! Unclaimed(fw, live).Keys
  {
    hide TunnelsOf, DistinctPorts;
    var wanted, strays := TunnelsOf(fw, EnabledIds(fw)), Unclaimed(fw, live);
    forall p: Port
      ensures p in live <==> p in wanted || p in strays
      ensures !(p in wanted && p in strays)
      ensures p in wanted ==> p in live && wanted[p] == live[p]
    {
      ClaimedByTunnel(fw, p);
      TunnelOf(fw, EnabledIds(fw), p);
    }
  }

  lemma ReplacedEntryIsUnwanted(fw: Forwards, snapshot: Forwards, id: string)
    requires DistinctTargets(snapshot) && SameTargets(fw, snapshot)
    requires id in EnabledIds(fw) && id in Unwanted(snapshot, fw)
    ensures id in Unwanted(fw, snapshot)
  {
    assert Target(fw[id]) == Target(snapshot[id]);
    forall b | b in snapshot && snapshot[b].enabled
      ensures !SameTunnel(snapshot[b], fw[id])
    {
      assert b != id ==> Target(snapshot[b]) != Target(snapshot[id]);
      assert b == id ==> !SameTunnel(fw[id], snapshot[id]);
    }
  }

  // ---------------------------------------------------------------------------
  // One call more
  // ---------------------------------------------------------------------------

  lemma ClosedOneMore(live: Tunnels, fw: Forwards, cancels: set<string>, id: string)
    requires cancels <= fw.Keys && id in fw
    ensures Closed(live, fw, cancels + {id}) == Cancel(Closed(live, fw, cancels), fw[id].localPort, Target(fw[id]))
  {
  }

  lemma TunnelsOneMore(fw: Forwards, ids: set<string>, id: string)
    requires DistinctPorts(fw) && ids + {id} <= EnabledIds(fw)
    ensures TunnelsOf(fw, ids + {id}) == TunnelsOf(fw, ids)[fw[id].localPort := Target(fw[id])]
  {
  }

  lemma MixedOneClosed(fw: Forwards, snapshot: Forwards, cancels: set<string>, id: string)
    requires id in fw
    ensures Mixed(fw, snapshot, cancels + {id}, {}) == Mixed(fw, snapshot, cancels, {})[id := Disabled(fw[id])]
  {
  }

  lemma MixedOneOpened(fw: Forwards, snapshot: Forwards, cancels: set<string>, opens: set<string>, id: string)
    requires opens <= snapshot.Keys && id in snapshot
    ensures Mixed(fw, snapshot, cancels, opens + {id}) == Mixed(fw, snapshot, cancels, opens)[id := snapshot[id]]
  {
  }

  // ---------------------------------------------------------------------------
  // Replaying on a new transport
  // ---------------------------------------------------------------------------

  /** Enabled entries may have moved to a higher local port and carry a new time;
      nothing else differs. */
  ghost predicate Replayed(fw: Forwards, fw': Forwards) {
    && fw'.Keys == fw.Keys
    && forall id :: id in fw ==> ReplayedEntry(fw[id], fw'[id])
  }

  ghost predicate ReplayedEntry(f: Forward, g: Forward) {
    if f.enabled then
      g == f.(localPort := g.localPort, tunnelOpenedAt := g.tunnelOpenedAt) && f.localPort <= g.localPort
    else g == f
  }

  lemma ReplayedKeepsEntries(fw: Forwards, fw': Forwards, next: nat)
    requires Entries(fw, next) && Replayed(fw, fw') && DistinctPorts(fw')
    ensures Entries(fw', next)
  {
    hide Issued, ForwardId, DistinctPorts;
    assert |fw'.Keys| == |fw.Keys|;
    forall a, b | a in fw' && b in fw' && a != b
      ensures Target(fw'[a]) != Target(fw'[b])
    {
      assert ReplayedEntry(fw[a], fw'[a]) && ReplayedEntry(fw[b], fw'[b]);
    }
    forall id | id in fw'
      ensures fw'[id].id == id && WellFormedEntry(fw'[id]) && Issued(id, next)
    {
      assert ReplayedEntry(fw[id], fw'[id]);
    }
  }

  /** Part way through a replay: the entries in `done` have their tunnels on ports
      that were unbound, the others are as they were. */
  ghost predicate Replaying(fw: Forwards, restored: Forwards, done: set<string>, opens: Tunnels) {
    && restored.Keys == fw.Keys && done <= EnabledIds(fw)
    && (forall id :: id in fw ==> if id in done then ReplayedEntry(fw[id], restored[id]) else restored[id] == fw[id])
    && (forall a, b :: a in done && b in done && a != b ==> restored[a].localPort != restored[b].localPort)
    && (forall id :: id in done ==>
          restored[id].localPort in opens && opens[restored[id].localPort] == Target(restored[id]))
    && (forall p :: p in opens ==> exists id :: id in done && restored[id].localPort == p)
  }

  lemma ReplayBegins(fw: Forwards, base: Tunnels)
    ensures Replaying(fw, fw, {}, map[]) && Extends(base, map[], base)
    ensures Divided(EnabledIds(fw), EnabledIds(fw), {}, {})
  {
  }

  /** The outcome of one turn: the entry on its port, with some time. */
  lemma TurnReplays(f: Forward, g: Forward)
    requires f.enabled && f.localPort <= g.localPort && g == f.(localPort := g.localPort,
               tunnelOpenedAt := g.tunnelOpenedAt)
    ensures ReplayedEntry(f, g) && Target(g) == Target(f)
  {
  }

  lemma ReplayOneMore(fw: Forwards, restored: Forwards, done: set<string>, opens: Tunnels, id: string, g: Forward)
    requires Replaying(fw, restored, done, opens)
    requires id in EnabledIds(fw) - done && ReplayedEntry(fw[id], g) && g.localPort !in opens
    ensures Replaying(fw, restored[id := g], done + {id}, opens[g.localPort := Target(g)])
  {
    hide ReplayedEntry, Target;
    var restored', done', opens' := restored[id := g], done + {id}, opens[g.localPort := Target(g)];
    forall p | p in opens'
      ensures exists other :: other in done' && restored'[other].localPort == p
    {
      if p == g.localPort {
        assert restored'[id].localPort == p;
      } else {
        var other :| other in done && restored[other].localPort == p;
        assert restored'[other].localPort == p;
      }
    }
  }

  /** One turn of the replay: not cancelled, the entry is put on the least port that is
      usable by the answers of the moment (free, and not the old port of another
      enabled entry), and the master opens its tunnel there. */
  ghost predicate Turn(fw: Forwards, id: string, f: Forward, cancelled: bool, free: Port -> bool, call: SshCall) {
    && id in EnabledIds(fw) && !cancelled
    && FirstUsable(fw, Some(id), free, fw[id].localPort) == Some(f.localPort)
    && f == fw[id].(localPort := f.localPort, tunnelOpenedAt := f.tunnelOpenedAt)
    && call == Open(f.localPort, Target(f), true)
  }

  /** Which ports are free when the next turn comes, after these calls. */
  function Look(free: Port -> bool, looks: seq<Port -> bool>, n: nat): Port -> bool
    requires n <= |looks|
  {
    if n == 0 then free else looks[n - 1]
  }

  /** The turns taken so far, one for each id of `order`: the entries started, and the
      calls made for them. `cancelled` gives the answer to the n-th question whether
      to stop. */
  ghost predicate Turns(fw: Forwards, cancelled: nat -> bool, free: Port -> bool, looks: seq<Port -> bool>,
                        calls: seq<SshCall>, order: seq<string>, started: seq<Forward>) {
    && |looks| == |calls| == |order| == |started| && Distinct(order)
    && forall i {:trigger started[i]} :: 0 <= i < |started| ==>
         Turn(fw, order[i], started[i], cancelled(i), Look(free, looks, i), calls[i])
  }

  /** Why the turn of this entry, the n-th, was not completed, and the calls it made. */
  ghost predicate TurnFailed(fw: Forwards, id: string, e: Error, cancelled: bool, free: Port -> bool,
                             calls: seq<SshCall>) {
    id in EnabledIds(fw) &&
    var port := FirstUsable(fw, Some(id), free, fw[id].localPort);
    match e
    case RecoveryCancelled => cancelled && calls == []
    case NoLocalPort => !cancelled && port.None? && calls == []
    case ForwardFailed => !cancelled && port.Some? && calls == [Open(port.value, Target(fw[id]), false)]
    case _ => false
  }

  /** A replay that stopped early: the turns taken, and why the next one, that of
      `stuck`, failed. */
  ghost predicate ReplayStopped(fw: Forwards, cancelled: nat -> bool, free: Port -> bool, looks: seq<Port -> bool>,
                                calls: seq<SshCall>, order: seq<string>, started: seq<Forward>, stuck: string,
                                e: Error) {
    var n := |started|;
    && n <= |calls| == |looks|
    && Turns(fw, cancelled, free, looks[..n], calls[..n], order, started)
    && stuck !in order && TurnFailed(fw, stuck, e, cancelled(n), Look(free, looks, n), calls[n..])
  }

  /** These are the requests to close the tunnels of these entries, in this order. */
  ghost predicate AskToClose(calls: seq<SshCall>, fs: seq<Forward>) {
    && |calls| == |fs|
    && forall i :: 0 <= i < |fs| ==>
         calls[i].Close? && calls[i].port == fs[i].localPort && calls[i].target == Target(fs[i])
  }

  /** The entries after some turns. */
  ghost predicate Moved(restored: Forwards, order: seq<string>, started: seq<Forward>) {
    |order| == |started| && forall i :: 0 <= i < |order| ==> order[i] in restored && restored[order[i]] == started[i]
  }

  lemma NoTurnsYet(fw: Forwards, cancelled: nat -> bool, free: Port -> bool)
    ensures Turns(fw, cancelled, free, [], [], [], []) && Moved(fw, [], [])
  {
  }

  lemma OneMoreTurn(fw: Forwards, cancelled: nat -> bool, free: Port -> bool, looks: seq<Port -> bool>,
                    calls: seq<SshCall>, order: seq<string>, started: seq<Forward>, restored: Forwards,
                    id: string, f: Forward, look: Port -> bool, call: SshCall)
    requires Turns(fw, cancelled, free, looks, calls, order, started) && id !in order
    requires Turn(fw, id, f, cancelled(|started|), Look(free, looks, |looks|), call)
    requires Moved(restored, order, started)
    ensures Turns(fw, cancelled, free, looks + [look], calls + [call], order + [id], started + [f])
    ensures Moved(restored[id := f], order + [id], started + [f])
  {
    hide Turn;
    var looks', calls', order', started' := looks + [look], calls + [call], order + [id], started + [f];
    forall i {:trigger started'[i]} | 0 <= i < |started'|
      ensures Turn(fw, order'[i], started'[i], cancelled(i), Look(free, looks', i), calls'[i])
    {
      if i < |started| {
        assert started'[i] == started[i];
      }
    }
  }

  lemma ReplayComplete(fw: Forwards, restored: Forwards, opens: Tunnels)
    requires Replaying(fw, restored, EnabledIds(fw), opens)
    ensures Replayed(fw, restored) && DistinctPorts(restored) && Truthful(restored, opens)
    ensures EnabledIds(restored) == EnabledIds(fw)
  {
    forall p | p in opens
      ensures Claims(restored, p)
    {
      var id :| id in EnabledIds(fw) && restored[id].localPort == p;
      assert ReplayedEntry(fw[id], restored[id]);
    }
    forall id | id in restored
      ensures ReplayedEntry(fw[id], restored[id]) && (restored[id].enabled <==> id in EnabledIds(fw))
    {
    }
  }

  // ---------------------------------------------------------------------------
  // What a restoration asks of SSH
  // ---------------------------------------------------------------------------

  /** The requests to close the tunnels of these entries; `granted` are the ids for
      which they were granted. */
  ghost function Closings(fw: Forwards, ids: seq<string>, granted: set<string>): seq<SshCall>
    requires forall id :: id in ids ==> id in fw
  {
    seq(|ids|, i requires 0 <= i < |ids| => Close(fw[ids[i]].localPort, Target(fw[ids[i]]), ids[i] in granted))
  }

  ghost function Openings(fw: Forwards, ids: seq<string>, granted: set<string>): seq<SshCall>
    requires forall id :: id in ids ==> id in fw
  {
    seq(|ids|, i requires 0 <= i < |ids| => Open(fw[ids[i]].localPort, Target(fw[ids[i]]), ids[i] in granted))
  }

  /** Each of these ids was tried once, with or without success. */
  ghost predicate Tried(ids: seq<string>, succeeded: set<string>, failed: set<string>) {
    Distinct(ids) && forall id :: id in ids <==> id in succeeded || id in failed
  }

  /** The list holds these ids, each once. */
  ghost predicate Lists(ids: seq<string>, all: set<string>) {
    Distinct(ids) && forall id :: id in ids <==> id in all
  }

  lemma TriedOneMore(wanted: set<string>, todo: set<string>, ids: seq<string>, succeeded: set<string>,
                     failed: set<string>, id: string)
    requires Divided(wanted, todo, succeeded, failed) && Tried(ids, succeeded, failed) && id in todo
    ensures Tried(ids + [id], succeeded + {id}, failed) && Tried(ids + [id], succeeded, failed + {id}) && id !in ids
  {
  }

  lemma TriedAll(wanted: set<string>, ids: seq<string>, succeeded: set<string>, failed: set<string>)
    requires Divided(wanted, {}, succeeded, failed) && Tried(ids, succeeded, failed)
    ensures Lists(ids, wanted)
  {
  }

  /** Part way through the closing: what has been asked, and for which of the ids the
      answer was yes. */
  ghost predicate ClosingLog(fw: Forwards, ids: seq<string>, granted: set<string>, failed: set<string>,
                             log: seq<SshCall>, later: seq<SshCall>) {
    && Tried(ids, granted, failed) && (forall id :: id in ids ==> id in fw)
    && later == log + Closings(fw, ids, granted)
  }

  ghost predicate OpeningLog(fw: Forwards, ids: seq<string>, granted: set<string>, failed: set<string>,
                             log: seq<SshCall>, later: seq<SshCall>) {
    && Tried(ids, granted, failed) && (forall id :: id in ids ==> id in fw)
    && later == log + Openings(fw, ids, granted)
  }

  lemma NoneTried(fw: Forwards, log: seq<SshCall>)
    ensures Tried([], {}, {}) && ClosingLog(fw, [], {}, {}, log, log) && OpeningLog(fw, [], {}, {}, log, log)
  {
  }

  lemma ClosingsOneMore(fw: Forwards, ids: seq<string>, granted: set<string>, failed: set<string>,
                        log: seq<SshCall>, later: seq<SshCall>, id: string)
    requires ClosingLog(fw, ids, granted, failed, log, later) && id in fw && id !in granted + failed
    ensures ClosingLog(fw, ids + [id], granted + {id}, failed, log,
                       later + [Close(fw[id].localPort, Target(fw[id]), true)])
    ensures ClosingLog(fw, ids + [id], granted, failed + {id}, log,
                       later + [Close(fw[id].localPort, Target(fw[id]), false)])
  {
    assert Closings(fw, ids + [id], granted + {id})
        == Closings(fw, ids, granted) + [Close(fw[id].localPort, Target(fw[id]), true)];
    assert Closings(fw, ids + [id], granted)
        == Closings(fw, ids, granted) + [Close(fw[id].localPort, Target(fw[id]), false)];
  }

  lemma OpeningsOneMore(fw: Forwards, ids: seq<string>, granted: set<string>, failed: set<string>,
                        log: seq<SshCall>, later: seq<SshCall>, id: string)
    requires OpeningLog(fw, ids, granted, failed, log, later) && id in fw && id !in granted + failed
    ensures OpeningLog(fw, ids + [id], granted + {id}, failed, log,
                       later + [Open(fw[id].localPort, Target(fw[id]), true)])
    ensures OpeningLog(fw, ids + [id], granted, failed + {id}, log,
                       later + [Open(fw[id].localPort, Target(fw[id]), false)])
  {
    assert Openings(fw, ids + [id], granted + {id})
        == Openings(fw, ids, granted) + [Open(fw[id].localPort, Target(fw[id]), true)];
    assert Openings(fw, ids + [id], granted)
        == Openings(fw, ids, granted) + [Open(fw[id].localPort, Target(fw[id]), false)];
  }

  lemma ClosingsAll(wanted: set<string>, fw: Forwards, ids: seq<string>, granted: set<string>, failed: set<string>,
                    log: seq<SshCall>, later: seq<SshCall>)
    requires Divided(wanted, {}, granted, failed) && ClosingLog(fw, ids, granted, failed, log, later)
    ensures Lists(ids, wanted) && (forall id :: id in ids ==> id in fw) && later == log + Closings(fw, ids, granted)
  {
  }

  lemma OpeningsAll(wanted: set<string>, fw: Forwards, ids: seq<string>, granted: set<string>, failed: set<string>,
                    log: seq<SshCall>, later: seq<SshCall>)
    requires Divided(wanted, {}, granted, failed) && OpeningLog(fw, ids, granted, failed, log, later)
    ensures Lists(ids, wanted) && (forall id :: id in ids ==> id in fw) && later == log + Openings(fw, ids, granted)
  {
  }

  /** Between the two logs, SSH was asked once about each tunnel to close and about each
      tunnel to open; `cancels` and `opens` are those for which it agreed. */
  ghost predicate AskedToRestore(fw: Forwards, snapshot: Forwards, cancels: set<string>, opens: set<string>,
                                 log: seq<SshCall>, later: seq<SshCall>) {
    exists closing: seq<string>, opening: seq<string> ::
      RestoreCalls(fw, snapshot, cancels, opens, closing, opening, log, later)
  }

  ghost predicate RestoreCalls(fw: Forwards, snapshot: Forwards, cancels: set<string>, opens: set<string>,
                               closing: seq<string>, opening: seq<string>, log: seq<SshCall>, later: seq<SshCall>) {
    && Lists(closing, Unwanted(fw, snapshot)) && Lists(opening, Unwanted(snapshot, fw))
    && later == log + Closings(fw, closing, cancels) + Openings(snapshot, opening, opens)
  }

  /** No call of a restoration names the port of a tunnel that both sides have. */
  lemma CommonTunnelIsNotNamed(fw: Forwards, snapshot: Forwards, cancels: set<string>, opens: set<string>,
                               log: seq<SshCall>, later: seq<SshCall>, i: nat, a: string, b: string)
    requires DistinctPorts(fw) && DistinctPorts(snapshot)
    requires AskedToRestore(fw, snapshot, cancels, opens, log, later) && |log| <= i < |later|
    requires a in EnabledIds(fw) && b in EnabledIds(snapshot) && SameTunnel(fw[a], snapshot[b])
    ensures later[i].port != fw[a].localPort
  {
    hide DistinctPorts, Unwanted;
    CommonTunnelIsUntouched(fw, snapshot, a, b);
    var closing, opening :| RestoreCalls(fw, snapshot, cancels, opens, closing, opening, log, later);
    var j := i - |log|;
    if j < |closing| {
      assert later[i] == Closings(fw, closing, cancels)[j];
      assert closing[j] in closing;
    } else {
      assert later[i] == Openings(snapshot, opening, opens)[j - |closing|];
      assert opening[j - |closing|] in opening;
    }
  }

  // ---------------------------------------------------------------------------
  // Bookkeeping of the loops
  // ---------------------------------------------------------------------------

  /** The work list: every wanted call is made once, and has succeeded or failed. */
  ghost predicate Divided(wanted: set<string>, todo: set<string>, succeeded: set<string>, failed: set<string>) {
    && succeeded + failed <= wanted <= succeeded + failed + todo
    && succeeded !! failed && succeeded + failed !! todo
  }

  lemma DividedOneLess(wanted: set<string>, todo: set<string>, succeeded: set<string>, failed: set<string>,
                       id: string)
    requires Divided(wanted, todo, succeeded, failed) && id in todo
    ensures id !in wanted ==> Divided(wanted, todo - {id}, succeeded, failed)
    ensures id in wanted ==> Divided(wanted, todo - {id}, succeeded + {id}, failed)
    ensures id in wanted ==> Divided(wanted, todo - {id}, succeeded, failed + {id})
  {
  }

  lemma DividedAtTheEnd(wanted: set<string>, succeeded: set<string>, failed: set<string>)
    requires Divided(wanted, {}, succeeded, failed)
    ensures succeeded <= wanted && (failed == {} <==> succeeded == wanted)
  {
  }

  /** The open tunnels are those of `base` and, on other ports, those of `more`. */
  ghost predicate Extends(base: Tunnels, more: Tunnels, live: Tunnels) {
    && (forall p :: p in more ==> p !in base)
    && live == base + more
  }

  lemma ExtendsOneMore(base: Tunnels, more: Tunnels, live: Tunnels, p: Port, e: Endpoint)
    requires Extends(base, more, live) && p !in live
    ensures p !in more && Extends(base, more[p := e], live[p := e])
  {
  }

  lemma NotReplayedYet(fw: Forwards, restored: Forwards, todo: set<string>, done: set<string>, opens: Tunnels,
                       id: string)
    requires Divided(EnabledIds(fw), todo, done, {}) && Replaying(fw, restored, done, opens)
    requires todo <= EnabledIds(fw) && id in todo
    ensures id in restored && restored[id] == fw[id] && id in EnabledIds(fw) - done
  {
  }

  lemma UnwantedMember(fw: Forwards, other: Forwards, id: string)
    ensures id in Unwanted(fw, other) <==> id in EnabledIds(fw) && !HasTunnel(other, fw[id])
  {
  }

  /** Where the loops begin. */
  lemma NothingCalledYet(fw: Forwards, other: Forwards, live: Tunnels)
    ensures Divided(Unwanted(fw, other), EnabledIds(fw), {}, {})
    ensures Mixed(fw, other, {}, {}) == fw
    ensures Closed(live, fw, {}) == live
  {
  }

  lemma NothingOpen(fw: Forwards, live: Tunnels)
    requires DistinctPorts(fw)
    ensures live + TunnelsOf(fw, {}) == live
  {
  }

  lemma EnabledAreKeys(fw: Forwards)
    ensures EnabledIds(fw) <= fw.Keys
  {
  }

  lemma EnabledMember(fw: Forwards, id: string)
    requires id in EnabledIds(fw)
    ensures id in fw && fw[id].enabled
  {
  }

  lemma RestoreStepHolds(s: State, snapshot: Forwards, next: nat, ok: bool, cancels: set<string>,
                         opens: set<string>, s': State)
    requires DistinctPorts(snapshot)
    requires cancels <= Unwanted(s.forwards, snapshot) && opens <= Unwanted(snapshot, s.forwards)
    requires forall id :: id in opens ==> snapshot[id].localPort !in Closed(s.live, s.forwards, cancels)
    requires s'.live == Closed(s.live, s.forwards, cancels) + TunnelsOf(snapshot, opens)
    requires ok <==> cancels == Unwanted(s.forwards, snapshot) && opens == Unwanted(snapshot, s.forwards)
    requires s'.forwards == if ok then snapshot else Mixed(s.forwards, snapshot, cancels, opens)
    requires s'.next == if ok && next > s.next then next else s.next
    ensures RestoreStep(s, snapshot, next, ok, cancels, opens, s')
  {
  }

  lemma UnwantedAreKeys(fw: Forwards, other: Forwards)
    ensures Unwanted(fw, other) <= fw.Keys
  {
  }
}
