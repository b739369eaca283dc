/** Transport recovery (src/bin/local/transport.rs) as a system of steps: client
    requests, the death of the SSH master, heartbeats, and the worker that closes the
    gate, rebuilds the transport and opens the gate again or gives up.

    The gate is tested before the registry lock is taken; here the test and the
    mutation are one step. Times are milliseconds. */
module Recovery {
  import opened Wrappers
  import opened Detect
  import opened Model
  import opened RegistrySpec
  import opened RegistryProofs
  import opened RestoreSpec
  import opened Operations
  import opened Undo

  const LEASE_TIMEOUT := 10_000
  const RECOVERY_TIMEOUT := 30_000

  /** Where the worker is. */
  datatype Phase =
    /** Watching a master. */
    | Serving
    /** The gate is closed, the old master not yet terminated. */
    | Closing
    /** Between two attempts; there is no master. */
    | Retrying
    /** An attempt has begun and is connecting. */
    | Connecting(started: nat)
    /** It has a fresh master and no tunnels yet. */
    | Connected(started: nat)
    /** It has replayed the tunnels and waits for the watcher. */
    | Restored(started: nat)
    /** The budget is used up. */
    | GaveUp
    /** The wrapper is shutting down. */
    | Quit

  /** `alive`: there is a master and it runs. `strays`: the open tunnels that belong to
      no enabled entry. */
  datatype Transport = Transport(
    registry: State,
    strays: Tunnels,
    alive: bool,
    reconnecting: bool,
    phase: Phase,
    heartbeat: Option<nat>,
    now: nat,
    deadline: nat,
    stop: bool,
    failed: bool)

  datatype Action =
    | Request(op: Operation, paused: set<Port>, answers: Answers, saved: bool,
              undone: bool, cancels: set<string>, opens: set<string>)
    | MasterDies
    | Heartbeat
    | Wait(time: nat)
    | AskToStop
    | CloseGate
    | Terminate
    | BeginAttempt
    | Reconnect(ok: bool)
    | Replay(ok: bool)
    | Fail
    | Confirm
    | GiveUp
    | Leave

  predicate Expired(t: Transport) { t.heartbeat.Some? && t.now - t.heartbeat.value > LEASE_TIMEOUT }

  /** Without a master no SSH call succeeds. */
  predicate AnswersFrom(alive: bool, action: Action)
    requires action.Request?
  {
    alive || (!action.answers.first && !action.answers.second && !action.answers.third
              && action.cancels == {} && action.opens == {})
  }

  /** The end of a master is the end of all its tunnels. */
  function Drop(t: Transport): Transport {
    t.(registry := t.registry.(live := map[]), strays := map[], alive := false)
  }

  ghost predicate ReplayStep(s: State, alive: bool, s': State) {
    && Replayed(s.forwards, s'.forwards) && DistinctPorts(s'.forwards) && s'.next == s.next
    && s'.live == s.live + TunnelsOf(s'.forwards, EnabledIds(s'.forwards))
    && (!alive ==> EnabledIds(s'.forwards) == {})
  }

  ghost predicate Next(t: Transport, action: Action, t': Transport) {
    match action
    case Request(op, paused, answers, saved, undone, cancels, opens) =>
      && !t.reconnecting && AnswersFrom(t.alive, action)
      && t.registry.next < U64_MAX && DistinctPorts(t.registry.forwards)
      && Transacted(t.registry, op, paused, answers, saved, undone, cancels, opens, t'.registry)
      && t' == t.(registry := t'.registry,
                  strays := t.strays + Leaked(t.registry, op, paused, answers, saved, cancels, opens))
    case MasterDies => t' == Drop(t)
    case Heartbeat => t' == t.(heartbeat := Some(t.now))
    case Wait(time) => t' == t.(now := t.now + time)
    case AskToStop => t' == t.(stop := true)
    case CloseGate =>
      && t.phase.Serving? && !t.stop && (!t.alive || Expired(t))
      && t' == t.(phase := Closing, reconnecting := true)
    case Terminate =>
      && t.phase.Closing?
      && t' == Drop(t).(phase := Retrying, deadline := t.now + RECOVERY_TIMEOUT)
    case BeginAttempt =>
      && t.phase.Retrying? && !t.stop && t.now < t.deadline
      && t' == t.(phase := Connecting(t.now))
    case Reconnect(ok) =>
      && t.phase.Connecting?
      && t' == if ok then t.(phase := Connected(t.phase.started), alive := true) else t.(phase := Retrying)
    case Replay(ok) =>
      && t.phase.Connected?
      && if ok then
           && ReplayStep(t.registry, t.alive, t'.registry)
           && t' == t.(phase := Restored(t.phase.started), registry := t'.registry)
         else t' == Drop(t).(phase := Retrying)
    case Fail =>
      && (t.phase.Connected? || t.phase.Restored?)
      && t' == Drop(t).(phase := Retrying)
    case Confirm =>
      && t.phase.Restored? && !t.stop && t.now < t.deadline
      && t.heartbeat.Some? && t.heartbeat.value >= t.phase.started
      && t' == t.(phase := Serving, reconnecting := false)
    case GiveUp =>
      && t.phase.Retrying? && !t.stop && t.now >= t.deadline
      && t' == t.(phase := GaveUp, failed := true)
    case Leave =>
      && t.stop && (t.phase.Serving? || t.phase.Retrying?)
      && t' == t.(phase := Quit)
  }

  /** The gate closes exactly when the worker, not asked to stop, finds the master dead or
      the last heartbeat more than ten seconds old. */
  lemma GateClosesExactly(t: Transport, t': Transport)
    ensures Next(t, CloseGate, t') <==>
            && t.phase.Serving? && !t.stop
            && (!t.alive || (t.heartbeat.Some? && t.now > t.heartbeat.value + 10_000))
            && t' == t.(phase := Closing, reconnecting := true)
  {
  }

  // ---------------------------------------------------------------------------
  // What every step keeps
  // ---------------------------------------------------------------------------

  /** Every enabled entry has its tunnel, and the strays are all the others. */
  ghost predicate Sound(s: State, alive: bool, strays: Tunnels) {
    if alive then Backed(s.forwards, s.live) && Unclaimed(s.forwards, s.live) == strays
    else s.live == map[] && strays == map[]
  }

  predicate InAttempt(phase: Phase) { phase.Connecting? || phase.Connected? || phase.Restored? }

  ghost predicate Safe(t: Transport) {
    && Entries(t.registry.forwards, t.registry.next)
    && (!t.alive ==> t.registry.live == map[])
    && (t.reconnecting <== !t.phase.Serving? && !t.phase.Quit?)
    && (t.phase.Serving? ==> !t.reconnecting)
    && (t.phase.Retrying? || t.phase.Connecting? || t.phase.GaveUp? || (t.phase.Quit? && t.reconnecting) ==> !t.alive)
    && (t.phase.Retrying? || InAttempt(t.phase) ==> t.strays == map[])
    && (t.phase.Connected? ==> t.registry.live == map[])
    && (t.phase.Restored? || !t.reconnecting ==> Sound(t.registry, t.alive, t.strays))
    && (InAttempt(t.phase) ==> t.phase.started <= t.now)
    && (t.heartbeat.Some? ==> t.heartbeat.value <= t.now)
    && (t.failed <==> t.phase.GaveUp?)
  }

  /** Without a master a mutation opens nothing. */
  lemma RefusedOpensNothing(s: State, op: Operation, paused: set<Port>, a: Answers)
    requires !a.first && !a.second && !a.third && s.live == map[]
    ensures Step(s, CallOf(op, paused, a)).live == map[]
  {
    hide Validate, FirstUsable, ForwardId, Held;
  }

  lemma UndoneOpensNothing(s: State, snapshot: Forwards, next: nat, ok: bool, s': State)
    requires DistinctPorts(snapshot) && RestoreStep(s, snapshot, next, ok, {}, {}, s') && s.live == map[]
    ensures s'.live == map[]
  {
    hide DistinctPorts, Possible;
  }

  lemma NothingOutlives(s: State, snapshot: Forwards, cancels: set<string>)
    ensures OutlivedTunnels(s, snapshot, cancels, {}) == map[]
  {
  }

  lemma RequestIsSound(s: State, alive: bool, strays: Tunnels, action: Action, s': State)
    requires action.Request? && AnswersFrom(alive, action)
    requires Entries(s.forwards, s.next) && s.next < U64_MAX && DistinctPorts(s.forwards) && Sound(s, alive, strays)
    requires Transacted(s, action.op, action.paused, action.answers, action.saved, action.undone,
                        action.cancels, action.opens, s')
    ensures Entries(s'.forwards, s'.next)
    ensures Sound(s', alive, strays + Leaked(s, action.op, action.paused, action.answers, action.saved,
                                             action.cancels, action.opens))
  {
    hide Entries, Backed, Unclaimed, DistinctPorts, Step, CallOf, RestoreStep, Failed, OutlivedTunnels;
    var call := CallOf(action.op, action.paused, action.answers);
    var t := Step(s, call);
    NoCloseAll(action.op, action.paused, action.answers);
    StepKeepsInv(s, call);
    if alive {
      StepKeepsBacked(s, call);
      StepKeepsUnclaimed(s, call);
    } else {
      RefusedOpensNothing(s, action.op, action.paused, action.answers);
      NothingOutlives(t, s.forwards, action.cancels);
    }
    if !Kept(s, action.op, action.paused, action.answers, action.saved) {
      UndoKeepsEntries(s, call, t, action.undone, action.cancels, action.opens, s');
      if alive {
        UndoLeaks(s, call, action.undone, action.cancels, action.opens, s');
      } else {
        UndoneOpensNothing(t, s.forwards, s.next, action.undone, s');
      }
    }
  }

  lemma ReplayIsSound(s: State, alive: bool, s': State)
    requires Entries(s.forwards, s.next) && s.live == map[] && ReplayStep(s, alive, s')
    ensures Entries(s'.forwards, s'.next) && Sound(s', alive, map[])
  {
    hide Entries, DistinctPorts, Backed, Unclaimed, Truthful, Replayed;
    ReplayedKeepsEntries(s.forwards, s'.forwards, s.next);
    TruthfulIsExact(s'.forwards, s'.live);
    TruthfulHasNoStrays(s'.forwards, s'.live);
    InvMeans(s');
    assert s'.live == TunnelsOf(s'.forwards, EnabledIds(s'.forwards));
  }

  lemma NextKeepsSafe(t: Transport, action: Action, t': Transport)
    requires Safe(t) && Next(t, action, t')
    ensures Safe(t')
  {
    hide Entries, DistinctPorts, Transacted, Kept, Leaked, ReplayStep, Backed, Unclaimed, AnswersFrom;
    match action {
      case Request(_, _, _, _, _, _, _) =>
        RequestIsSound(t.registry, t.alive, t.strays, action, t'.registry);
      case Replay(ok) =>
        if ok { ReplayIsSound(t.registry, t.alive, t'.registry); }
      case _ =>
    }
  }

  // ---------------------------------------------------------------------------
  // Whole runs
  // ---------------------------------------------------------------------------

  ghost predicate IsRun(states: seq<Transport>, actions: seq<Action>) {
    && |states| == |actions| + 1
    && forall i :: 0 <= i < |actions| ==> Next(states[i], actions[i], states[i + 1])
  }

  lemma {:induction false} RunsAreSafe(states: seq<Transport>, actions: seq<Action>, i: nat)
    requires IsRun(states, actions) && Safe(states[0]) && i < |states|
    ensures Safe(states[i])
  {
    hide Safe, Next;
    if i > 0 {
      RunsAreSafe(states, actions, i - 1);
      NextKeepsSafe(states[i - 1], actions[i - 1], states[i]);
    }
  }

  /** In every run: while the gate is open and the master lives, the open tunnels are
      exactly those of the enabled entries and, on other ports, the strays that
      rollbacks left behind; whenever an attempt has failed, none is left. */
  lemma RecoveryIsSafe(states: seq<Transport>, actions: seq<Action>, i: nat)
    requires IsRun(states, actions) && Safe(states[0]) && i < |states|
    ensures var t := states[i];
            && Entries(t.registry.forwards, t.registry.next)
            && (!t.reconnecting && t.alive ==>
                  var wanted := TunnelsOf(t.registry.forwards, EnabledIds(t.registry.forwards));
                  t.registry.live == wanted + t.strays && wanted.Keys !! t.strays.Keys)
            && (!t.alive ==> t.registry.live == map[])
            && (t.phase.Retrying? || t.phase.GaveUp? ==> t.registry.live == map[] && t.reconnecting)
            && (t.failed ==> t.reconnecting)
  {
    hide Next, Entries, Unclaimed, Backed, TunnelsOf;
    RunsAreSafe(states, actions, i);
    var t := states[i];
    InvMeans(t.registry);
    if !t.reconnecting && t.alive {
      UnclaimedIsExact(t.registry.forwards, t.registry.live);
    }
  }

  // ---------------------------------------------------------------------------
  // A run that leaks a tunnel
  // ---------------------------------------------------------------------------

  const SERVER := Endpoint("127.0.0.1", 80)

  /** One entry, served on this local port. */
  function Entry(port: Port, time: nat): Forward {
    Forward(ForwardId(1), 80, port, "127.0.0.1", "p", "", "", true, false, None, None, time)
  }

  function OneEntry(port: Port, time: nat, live: Tunnels): State {
    State(map[ForwardId(1) := Entry(port, time)], 1, live)
  }

  lemma OneEntryIsTruthful(port: Port, time: nat)
    requires port != 0
    ensures Inv(OneEntry(port, time, map[port := SERVER]))
  {
    hide ForwardId;
    var s := OneEntry(port, time, map[port := SERVER]);
    assert Issued(ForwardId(1), 1);
    assert ForwardId(1) in s.forwards && Claims(s.forwards, port);
  }

  const MOVE := OpLocalPort(ForwardId(1), 9090)
  const ANSWERS := Answers(_ => true, true, true, false, 5)

  lemma Moved()
    ensures var s := OneEntry(8080, 1, map[8080 := SERVER]);
            && Step(s, CallOf(MOVE, {}, ANSWERS)) == OneEntry(9090, 5, map[9090 := SERVER])
            && !Failed(s, CallOf(MOVE, {}, ANSWERS))
  {
    hide ForwardId;
    var s := OneEntry(8080, 1, map[8080 := SERVER]);
    assert !PortTaken(s.forwards, ForwardId(1), 9090);
    assert Cancel(s.live, 8080, SERVER) == map[];
    assert s.forwards[ForwardId(1) := Entry(9090, 5)] == OneEntry(9090, 5, map[]).forwards;
  }

  lemma BothUnwanted()
    ensures var fw, fw' := OneEntry(8080, 1, map[]).forwards, OneEntry(9090, 5, map[]).forwards;
            Unwanted(fw, fw') == {ForwardId(1)} && Unwanted(fw', fw) == {ForwardId(1)}
  {
    hide ForwardId;
    var fw, fw' := OneEntry(8080, 1, map[]).forwards, OneEntry(9090, 5, map[]).forwards;
    assert fw.Keys == {ForwardId(1)} == fw'.Keys;
  }

  lemma OneTunnel()
    ensures var fw := OneEntry(8080, 1, map[]).forwards;
            && DistinctPorts(fw) && {ForwardId(1)} <= EnabledIds(fw)
            && TunnelsOf(fw, {ForwardId(1)}) == map[8080 := SERVER]
  {
    hide ForwardId;
    var fw := OneEntry(8080, 1, map[]).forwards;
    assert DistinctPorts(fw) && {ForwardId(1)} <= EnabledIds(fw);
    var tunnels := TunnelsOf(fw, {ForwardId(1)});
    forall p: Port
      ensures p in tunnels <==> p == 8080
      ensures p in tunnels ==> tunnels[p] == SERVER
    {
      TunnelOf(fw, {ForwardId(1)}, p);
    }
  }

  lemma NothingClosed(live: Tunnels, fw: Forwards)
    ensures Closed(live, fw, {}) == live
  {
  }

  lemma AllMixed(fw: Forwards, snapshot: Forwards)
    requires fw.Keys == snapshot.Keys
    ensures Mixed(fw, snapshot, {}, snapshot.Keys) == snapshot
  {
  }

  /** The old port is bound again, the new one could not be freed. */
  lemma HalfUndone()
    ensures var s, t := OneEntry(8080, 1, map[8080 := SERVER]), OneEntry(9090, 5, map[9090 := SERVER]);
            var both := OneEntry(8080, 1, map[8080 := SERVER, 9090 := SERVER]);
            && DistinctPorts(s.forwards)
            && RestoreStep(t, s.forwards, 1, false, {}, {ForwardId(1)}, both)
            && OutlivedTunnels(t, s.forwards, {}, {ForwardId(1)}) == map[9090 := SERVER]
  {
    hide ForwardId, Unwanted, TunnelsOf, Closed, Mixed, DistinctPorts, EnabledIds;
    var id := ForwardId(1);
    var s, t := OneEntry(8080, 1, map[8080 := SERVER]), OneEntry(9090, 5, map[9090 := SERVER]);
    BothUnwanted();
    OneTunnel();
    NothingClosed(t.live, t.forwards);
    assert t.forwards.Keys == {id} == s.forwards.Keys;
    AllMixed(t.forwards, s.forwards);
    assert t.live + map[8080 := SERVER] == map[8080 := SERVER, 9090 := SERVER];
    assert Outlived(t.forwards, s.forwards, {}, {id}, 9090);
  }

  /** Moving an entry to another local port cannot be saved, and the rollback opens the
      old tunnel but cannot close the new one: a stray is left that nobody will close
      before the master ends. */
  lemma ARollbackLeaks() returns (states: seq<Transport>, actions: seq<Action>)
    ensures IsRun(states, actions) && Safe(states[0]) && |states| == 2 && states[0].strays == map[]
    ensures var t := states[1];
            && !t.reconnecting && t.alive && t.strays == map[9090 := SERVER]
            && t.registry == OneEntry(8080, 1, map[8080 := SERVER, 9090 := SERVER])
  {
    hide OneEntry, Entry, RestoreStep, OutlivedTunnels, Step, CallOf, Failed, Entries, Backed, Unclaimed, DistinctPorts;
    var s, both := OneEntry(8080, 1, map[8080 := SERVER]), OneEntry(8080, 1, map[8080 := SERVER, 9090 := SERVER]);
    OneEntryIsTruthful(8080, 1);
    InvMeans(s);
    TruthfulHasNoStrays(s.forwards, s.live);
    Moved();
    HalfUndone();
    OneEntryCounts(8080, 1, map[8080 := SERVER]);
    var before := Transport.Transport(s, map[], true, false, Serving, None, 0, 0, false, false);
    var after := before.(registry := both, strays := map[9090 := SERVER]);
    assert map[] + map[9090 := SERVER] == map[9090 := SERVER];
    var action := Request(MOVE, {}, ANSWERS, false, false, {}, {ForwardId(1)});
    states, actions := [before, after], [action];
    assert Next(before, action, after);
  }

  lemma OneEntryCounts(port: Port, time: nat, live: Tunnels)
    ensures OneEntry(port, time, live).next == 1
  {
  }

  lemma ReplayedTwice(a: Forwards, b: Forwards, c: Forwards)
    requires Replayed(a, b) && Replayed(b, c)
    ensures Replayed(a, c)
  {
    forall id | id in a
      ensures ReplayedEntry(a[id], c[id])
    {
      assert ReplayedEntry(a[id], b[id]) && ReplayedEntry(b[id], c[id]);
    }
  }

  /** However many attempts an outage takes: every entry keeps its id, switch,
      endpoint, origin and labels; only local ports may have moved, upwards. */
  lemma {:induction false} OutagesKeepEntries(states: seq<Transport>, actions: seq<Action>, i: nat, j: nat)
    requires IsRun(states, actions) && i <= j < |states|
    requires forall k :: i <= k < j ==> states[k].reconnecting
    ensures Replayed(states[i].registry.forwards, states[j].registry.forwards)
    ensures states[j].registry.next == states[i].registry.next
    decreases j
  {
    hide Replayed, Next;
    NothingMoves(states[i].registry.forwards);
    if i < j {
      OutagesKeepEntries(states, actions, i, j - 1);
      ClosedStepMoves(states[j - 1], actions[j - 1], states[j]);
      ReplayedTwice(states[i].registry.forwards, states[j - 1].registry.forwards, states[j].registry.forwards);
    }
  }

  lemma NothingMoves(fw: Forwards)
    ensures Replayed(fw, fw)
  {
  }

  lemma ClosedStepMoves(t: Transport, action: Action, t': Transport)
    requires t.reconnecting && Next(t, action, t')
    ensures Replayed(t.registry.forwards, t'.registry.forwards) && t'.registry.next == t.registry.next
  {
    hide Replayed, TunnelsOf, EnabledIds;
    NothingMoves(t.registry.forwards);
  }

  /** The gate opens only because of a heartbeat that is no older than the attempt,
      and before the deadline of the outage. */
  lemma {:induction false} OpeningNeedsFreshHeartbeat(states: seq<Transport>, actions: seq<Action>, i: nat)
      returns (k: nat)
    requires IsRun(states, actions) && states[0].phase.Serving? && i < |actions|
    requires states[i].reconnecting && !states[i + 1].reconnecting
    ensures k < i && actions[k].BeginAttempt?
    ensures forall m :: k < m <= i ==> !actions[m].BeginAttempt?
    ensures states[i].heartbeat.Some? && states[k].now <= states[i].heartbeat.value
    ensures states[i].now < states[i].deadline
  {
    hide Next;
    OpeningStep(states[i], actions[i], states[i + 1]);
    k := AttemptStart(states, actions, i);
  }

  lemma OpeningStep(t: Transport, action: Action, t': Transport)
    requires Next(t, action, t') && t.reconnecting && !t'.reconnecting
    ensures t.phase.Restored? && t.heartbeat.Some? && t.heartbeat.value >= t.phase.started && t.now < t.deadline
    ensures action.Confirm?
  {
    hide Replayed, TunnelsOf, EnabledIds, Transacted, AnswersFrom;
  }

  lemma {:induction false} AttemptStart(states: seq<Transport>, actions: seq<Action>, i: nat) returns (k: nat)
    requires IsRun(states, actions) && states[0].phase.Serving? && i < |actions|
    requires InAttempt(states[i].phase)
    ensures k < i && actions[k].BeginAttempt? && states[k].now == states[i].phase.started
    ensures forall m :: k < m < i ==> !actions[m].BeginAttempt?
  {
    hide Next;
    AttemptStep(states[i - 1], actions[i - 1], states[i]);
    if actions[i - 1].BeginAttempt? {
      k := i - 1;
    } else {
      k := AttemptStart(states, actions, i - 1);
    }
  }

  /** An attempt keeps its starting time, which is before it connects. */
  lemma AttemptStep(t: Transport, action: Action, t': Transport)
    requires Next(t, action, t') && InAttempt(t'.phase)
    ensures if action.BeginAttempt? then t.now == t'.phase.started
            else InAttempt(t.phase) && t.phase.started == t'.phase.started
  {
    hide Replayed, TunnelsOf, EnabledIds, Transacted, AnswersFrom;
  }

  /** After giving up, the gate never opens again and no tunnel is ever opened. */
  lemma {:induction false} FailureIsFinal(states: seq<Transport>, actions: seq<Action>, i: nat, j: nat)
    requires IsRun(states, actions) && i <= j < |states| && Safe(states[i]) && states[i].phase.GaveUp?
    ensures states[j].reconnecting && states[j].failed && states[j].registry == states[i].registry
    ensures states[j].phase.GaveUp? && states[j].registry.live == map[] && !states[j].alive
    decreases j
  {
    if i < j {
      FailureIsFinal(states, actions, i, j - 1);
      FinalStep(states[j - 1], actions[j - 1], states[j]);
    }
  }

  lemma FinalStep(t: Transport, action: Action, t': Transport)
    requires Next(t, action, t') && t.phase.GaveUp? && t.reconnecting && !t.alive && t.registry.live == map[]
    ensures t'.registry == t.registry && t'.phase.GaveUp? && t'.reconnecting && !t'.alive && t'.failed == t.failed
  {
    hide Replayed, TunnelsOf, EnabledIds, Transacted, AnswersFrom;
  }

  /** A recovered outage as a whole: from the closing of the gate to its opening. */
  lemma RecoveredOutage(states: seq<Transport>, actions: seq<Action>, i: nat, j: nat)
    requires IsRun(states, actions) && Safe(states[0]) && i < j < |actions|
    requires actions[i].CloseGate? && actions[j].Confirm?
    requires forall k :: i < k <= j ==> states[k].reconnecting
    ensures var before, after := states[i].registry, states[j + 1].registry;
            && Replayed(before.forwards, after.forwards) && DistinctPorts(after.forwards)
            && (states[j + 1].alive ==> after.live == TunnelsOf(after.forwards, EnabledIds(after.forwards)))
            && EnabledIds(after.forwards) == EnabledIds(before.forwards)
  {
    hide Replayed, TunnelsOf, Transacted, Leaked, AnswersFrom, Entries, Backed, Unclaimed, ReplayStep, EnabledIds;
    assert Next(states[i], actions[i], states[i + 1]) && Next(states[j], actions[j], states[j + 1]);
    OutagesKeepEntries(states, actions, i + 1, j);
    RunsAreSafe(states, actions, j);
    var t := states[j];
    InvMeans(t.registry);
    if t.alive {
      UnclaimedIsExact(t.registry.forwards, t.registry.live);
    }
    SameEnabled(states[i].registry.forwards, t.registry.forwards);
  }

  lemma SameEnabled(fw: Forwards, fw': Forwards)
    requires Replayed(fw, fw')
    ensures EnabledIds(fw') == EnabledIds(fw)
  {
    forall id | id in fw
      ensures fw'[id].enabled == fw[id].enabled
    {
      assert ReplayedEntry(fw[id], fw'[id]);
    }
  }
}
