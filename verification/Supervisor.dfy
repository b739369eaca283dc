/** The worker of src/bin/local/transport.rs as a program. Everything else that goes
    on (time, heartbeats, a dying master, a request to stop) happens between its
    statements. The object records every step it takes; the record is proved to be a
    run of `Recovery`, so that everything proved there holds of this program. */
module Supervisor {
  import opened Wrappers
  import opened Journals
  import opened Attempts
  import opened RegistrySpec
  import opened RestoreSpec
  import opened ForwardRegistry
  import opened Recovery
  import opened Undo

  class Worker {
    const registry: Registry
    var reconnecting: bool
    var heartbeat: Option<nat>
    var now: nat
    var deadline: nat
    var stop: bool
    var failed: bool
    /** Where the worker is, and what has happened so far. */
    ghost var phase: Phase
    ghost var strays: Tunnels
    ghost var states: seq<Transport>
    ghost var actions: seq<Action>
    /** The current outage: its first state with the gate closed, and the registry
        when it began. */
    ghost var since: nat
    ghost var before: State
    /** The commands run so far, and whether they worked. */
    ghost var commands: seq<Attempted<Command>>

    ghost function View(): Transport
      reads this, registry, registry.ssh
    {
      Transport(registry.View(), strays, registry.ssh.alive, reconnecting, phase, heartbeat, now, deadline, stop,
          failed)
    }

    ghost predicate Valid()
      reads this, registry, registry.ssh
    {
      && registry.Valid()
      && IsRun(states, actions) && states[|actions|] == View()
      && Safe(states[0]) && states[0].phase.Serving?
    }

    /** The gate has been closed since the outage began. */
    ghost predicate Outage()
      reads `reconnecting, `since, `before, `states, `actions
    {
      && reconnecting && 0 < since < |states| == |actions| + 1
      && actions[since - 1].CloseGate? && states[since - 1].registry == before
      && forall k :: since <= k < |states| ==> states[k].reconnecting
    }

    constructor (registry: Registry)
      requires registry.Valid() && registry.ssh.alive && Inv(registry.View())
      ensures Valid() && this.registry == registry && phase == Serving && !reconnecting
    {
      this.registry := registry;
      reconnecting, heartbeat, now, deadline, stop, failed := false, None, 0, 0, false, false;
      phase, strays, since, before := Serving, map[], 0, INITIAL;
      states, actions, commands := [], [], [];
      new;
      states := [View()];
    }

    /** What the record says about the present. */
    lemma Present()
      requires Valid()
      ensures Safe(View()) && |states| == |actions| + 1
    {
      hide Next, Safe;
      RunsAreSafe(states, actions, |actions|);
    }

    /** The definitions above, spelled out. */
    lemma Spelled()
      ensures RECOVERY_TIMEOUT == 30_000
      ensures View() == Transport(registry.View(), strays, registry.ssh.alive, reconnecting, phase, heartbeat,
                now, deadline, stop, failed)
      ensures Valid() ==>
                && registry.Valid() && IsRun(states, actions) && |states| == |actions| + 1 &&
                   states[|actions|] == View()
                && Safe(states[0]) && states[0].phase.Serving?
      ensures Outage() <==>
                && reconnecting && 0 < since < |states| == |actions| + 1
                && actions[since - 1].CloseGate? && states[since - 1].registry == before
                && forall k :: since <= k < |states| ==> states[k].reconnecting
    {
      hide Safe, Next, Registry.Valid, Registry.View;
    }

    /** Writes down the step that has just been taken. */
    ghost method Record(action: Action)
      requires registry.Valid() && IsRun(states, actions) && Safe(states[0]) && states[0].phase.Serving?
      requires Next(states[|actions|], action, View())
      modifies `states, `actions
      ensures Valid() && states == old(states) + [View()] && actions == old(actions) + [action]
      ensures old(Outage()) && reconnecting ==> Outage()
      ensures !action.BeginAttempt? ==>
                forall before, past :: Continues(before, past, old(states), old(actions)) ==>
                                         Continues(before, past, states, actions)
    {
      hide Next, Safe, Registry.Valid, Continues;
      if !action.BeginAttempt? {
        OneStep(states, actions, View(), action);
      }
      ghost var longer, more := states + [View()], actions + [action];
      forall i | 0 <= i < |more|
        ensures Next(longer[i], more[i], longer[i + 1])
      {
        if i < |actions| {
          assert Next(states[i], actions[i], states[i + 1]);
        }
      }
      states, actions := longer, more;
    }

    method Elapsed() returns (time: nat) {
      time := *;
    }

    method Pass(pause: nat)
      requires Valid() && Outage()
      modifies `now, `states, `actions
      ensures Valid() && Outage() && now >= old(now) + pause
      ensures states == old(states) + [View()] && Waited(old(actions), actions, pause)
      ensures forall before, past :: Continues(before, past, old(states), old(actions)) ==>
                                       Continues(before, past, states, actions)
    {
      hide Safe, IsRun, Registry.Valid, Registry.View, Transacted, AnswersFrom, ReplayStep, Continues;
      var time := Elapsed();
      now := now + pause + time;
      Record(Wait(pause + time));
    }

    method Beat()
      requires Valid() && Outage()
      modifies `heartbeat, `states, `actions
      ensures Valid() && Outage()
      ensures states == old(states) + [View()] && actions == old(actions) + [Heartbeat]
      ensures forall before, past :: Continues(before, past, old(states), old(actions)) ==>
                                       Continues(before, past, states, actions)
    {
      hide Safe, IsRun, Registry.Valid, Registry.View, Transacted, AnswersFrom, ReplayStep, Continues;
      heartbeat := Some(now);
      Record(Heartbeat);
    }

    method AskToStop()
      requires Valid() && Outage()
      modifies `stop, `states, `actions
      ensures Valid() && Outage()
      ensures states == old(states) + [View()] && actions == old(actions) + [Recovery.Action.AskToStop]
      ensures forall before, past :: Continues(before, past, old(states), old(actions)) ==>
                                       Continues(before, past, states, actions)
    {
      hide Safe, IsRun, Registry.Valid, Registry.View, Transacted, AnswersFrom, ReplayStep, Continues;
      stop := true;
      Record(Recovery.Action.AskToStop);
    }

    method LoseMaster()
      requires Valid() && Outage()
      modifies `strays, `states, `actions, registry.ssh`alive, registry.ssh`live
      ensures Valid() && Outage() && !registry.ssh.alive
      ensures states == old(states) + [View()] && actions == old(actions) + [MasterDies]
      ensures forall before, past :: Continues(before, past, old(states), old(actions)) ==>
                                       Continues(before, past, states, actions)
    {
      hide *;
      Spelled();
      registry.Unfold();
      ghost var t := View();
      registry.ssh.Exit();
      strays := map[];
      registry.Unfold();
      Spelled();
      Died(t, View());
      Record(MasterDies);
    }

    /** What may happen while the worker waits. */
    method Meanwhile(pause: nat)
      requires Valid() && Outage()
      modifies `now, `heartbeat, `stop, `strays, `states, `actions, registry.ssh`alive, registry.ssh`live
      ensures Valid() && Outage() && now >= old(now) + pause
      ensures !old(registry.ssh.alive) ==> !registry.ssh.alive
      ensures Waited(old(actions), actions, pause) && |actions| > |old(actions)|
      ensures old(states) <= states && phase == old(phase)
      ensures forall before, past :: Continues(before, past, old(states), old(actions)) ==>
                                       Continues(before, past, states, actions)
    {
      hide *;
      Pass(pause);
      WaitedMeans(old(actions), actions, pause);
      var beats := Outside();
      var asked := Outside();
      var dies := Outside();
      if beats {
        StillWaited(old(actions), actions, Heartbeat, pause);
        Beat();
      }
      if asked {
        StillWaited(old(actions), actions, Recovery.Action.AskToStop, pause);
        AskToStop();
      }
      if dies {
        StillWaited(old(actions), actions, MasterDies, pause);
        LoseMaster();
      }
    }

    method CloseGate()
      requires Valid() && phase.Serving? && !stop && (!registry.ssh.alive || Expired(View()))
      modifies `reconnecting, `phase, `states, `actions, `since, `before
      ensures Valid() && Outage() && phase.Closing? && before == old(registry.View())
      ensures actions == old(actions) + [Recovery.Action.CloseGate] && since == |actions|
    {
      hide Safe, IsRun, Registry.Valid, Registry.View, Transacted, AnswersFrom, ReplayStep, Continues;
      Present();
      reconnecting, phase := true, Closing;
      since, before := |states|, registry.View();
      Record(Recovery.Action.CloseGate);
    }

    method Terminate()
      requires Valid() && Outage() && phase.Closing?
      modifies `phase, `strays, `deadline, `states, `actions, registry.ssh`alive, registry.ssh`live
      ensures Valid() && Outage() && phase.Retrying? && deadline == now + RECOVERY_TIMEOUT && !registry.ssh.alive
      ensures forall before, past :: Continues(before, past, old(states), old(actions)) ==>
                                       Continues(before, past, states, actions)
    {
      hide *;
      Spelled();
      registry.Unfold();
      ghost var t := View();
      registry.ssh.Exit();
      phase, strays, deadline := Retrying, map[], now + RECOVERY_TIMEOUT;
      registry.Unfold();
      Spelled();
      Terminated(t, View());
      Record(Recovery.Action.Terminate);
    }

    method BeginAttempt()
      requires Valid() && Outage() && phase.Retrying? && !stop && now < deadline
      modifies `phase, `states, `actions
      ensures Valid() && Outage() && phase == Connecting(now)
      ensures states == old(states) + [View()] && actions == old(actions) + [Recovery.Action.BeginAttempt]
    {
      hide Safe, IsRun, Registry.Valid, Registry.View, Transacted, AnswersFrom, ReplayStep, Continues;
      phase := Connecting(now);
      Record(Recovery.Action.BeginAttempt);
    }

    method Connect() returns (ok: bool)
      requires Valid() && Outage() && phase.Connecting?
      modifies `phase, `states, `actions, registry.ssh`alive, registry.ssh`starts
      ensures Valid() && Outage() && phase == if ok then Connected(old(phase.started)) else Retrying
      ensures registry.ssh.starts == old(registry.ssh.starts) + [ok]
      ensures states == old(states) + [View()] && actions == old(actions) + [Reconnect(ok)]
      ensures forall before, past :: Continues(before, past, old(states), old(actions)) ==>
                                       Continues(before, past, states, actions)
    {
      hide IsRun, Registry.Valid, Registry.View, Transacted, AnswersFrom, ReplayStep, Entries, Backed, Truthful,
           Continues;
      Present();
      registry.Unfold();
      ok := registry.ssh.Start();
      registry.Unfold();
      phase := if ok then Connected(phase.started) else Retrying;
      Record(Reconnect(ok));
    }

    /** An attempt that fails takes its master down. */
    method Abandon()
      requires Valid() && Outage() && (phase.Connected? || phase.Restored?)
      modifies `phase, `strays, `states, `actions, registry.ssh`alive, registry.ssh`live
      ensures Valid() && Outage() && phase.Retrying? && !registry.ssh.alive
      ensures states == old(states) + [View()] && actions == old(actions) + [Fail]
      ensures forall before, past :: Continues(before, past, old(states), old(actions)) ==>
                                       Continues(before, past, states, actions)
    {
      hide *;
      Spelled();
      registry.Unfold();
      ghost var t := View();
      registry.ssh.Exit();
      phase, strays := Retrying, map[];
      registry.Unfold();
      Spelled();
      Abandoned(t, View());
      Record(Fail);
    }

    method ReplayTunnels() returns (ok: bool)
      requires Valid() && Outage() && phase.Connected?
      modifies `phase, `strays, `states, `actions, registry`forwards
      modifies registry.ssh`alive, registry.ssh`live, registry.ssh`free, registry.ssh`log, registry.ssh`looks
      ensures Valid() && Outage()
      ensures phase == if ok then Restored(old(phase.started)) else Retrying
      ensures !ok ==> !registry.ssh.alive
      ensures states == old(states) + [View()] && actions == old(actions) + [Replay(ok)]
      ensures old(registry.ssh.log) <= registry.ssh.log && old(registry.ssh.looks) <= registry.ssh.looks
      ensures var ssh := registry.ssh;
              !ok ==> exists e :: ReplayRefused(old(registry.forwards), Over(old(View())), old(ssh.free),
                                                ssh.looks[|old(ssh.looks)|..], ssh.log[|old(ssh.log)|..], e)
      ensures forall before, past :: Continues(before, past, old(states), old(actions)) ==>
                                       Continues(before, past, states, actions)
    {
      hide *;
      Spelled();
      registry.Unfold();
      ghost var t, fw := View(), registry.forwards;
      ghost var free, looks, log := registry.ssh.free, registry.ssh.looks, registry.ssh.log;
      var over := stop || now >= deadline;
      LookMeans(t, 0);
      ghost var order, started, stuck;
      var r;
      r, order, started, stuck := registry.RestoreTunnels(Always(over));
      ok := r.Ok?;
      if ok {
        phase := Restored(phase.started);
      } else {
        ReplayWasRefused(fw, over, free, registry.ssh.looks[|looks|..], registry.ssh.log[|log|..], order, started,
                         stuck, r.error);
        registry.ssh.Exit();
        phase, strays := Retrying, map[];
      }
      registry.Unfold();
      Spelled();
      ReplayedOrDropped(t, ok, View());
      Record(Replay(ok));
    }

    /** A live master is not enough: the watcher must reach the companion again. */
    method AwaitHeartbeat(started: nat) returns (ok: bool, ghost looks: seq<nat>)
      requires Valid() && Outage() && phase == Restored(started)
      modifies `now, `heartbeat, `stop, `reconnecting, `phase, `strays, `states, `actions
      modifies registry.ssh`alive, registry.ssh`live
      ensures Valid() && now >= old(now)
      ensures ok ==> OutageOver() && |actions| > |old(actions)| && actions[|actions| - 1].Confirm?
      ensures !ok ==> Outage() && phase == Restored(started) && |actions| >= |old(actions)|
      ensures forall before, past :: Continues(before, past, old(states), old(actions)) ==>
                                       Continues(before, past, states, actions)
      ensures Looks(states, actions, started, looks) && looks[0] == |old(actions)|
      ensures looks[|looks| - 1] == if ok then |actions| - 1 else |actions|
      ensures var last := states[looks[|looks| - 1]];
              !GoesOnWaiting(last, started) && (ok <==> !Over(last) && Resumed(last, started))
    {
      hide *;
      Spelled();
      looks := [|actions|];
      FirstLook(states, actions, started);
      ghost var first, past := states, actions;
      while !stop && now < deadline
        invariant Valid() && Outage() && phase == Restored(started) && now >= old(now)
        invariant forall before, before' :: Continues(before, before', first, past) ==>
                                              Continues(before, before', states, actions)
        invariant |states| == |actions| + 1 && states[|actions|] == View()
        invariant Looks(states, actions, started, looks)
        invariant |past| <= |actions| && looks != [] && looks[0] == |past| && looks[|looks| - 1] == |actions|
        decreases deadline - now
      {
        ghost var seen, done := states, actions;
        ContinuesMeans(seen, done, seen, done);
        Spelled();
        LookMeans(View(), started);
        if heartbeat.Some? && heartbeat.value >= started {
          Reopen(started);
          Spelled();
          ContinuesMeans(seen, done, states, actions);
          LooksLater(seen, done, started, looks, states, actions);
          return true, looks;
        }
        if !registry.ssh.alive {
          return false, looks;
        }
        Meanwhile(200);
        Spelled();
        ContinuesMeans(seen, done, states, actions);
        LookAgain(seen, done, started, looks, states, actions);
        looks := looks + [|actions|];
      }
      Spelled();
      LookMeans(View(), started);
      return false, looks;
    }

    method Reopen(started: nat)
      requires Valid() && Outage() && phase == Restored(started) && !stop && now < deadline
      requires heartbeat.Some? && heartbeat.value >= started
      modifies `reconnecting, `phase, `states, `actions
      ensures Valid() && OutageOver()
      ensures states == old(states) + [View()] && actions == old(actions) + [Confirm]
      ensures forall before, past :: Continues(before, past, old(states), old(actions)) ==>
                                       Continues(before, past, states, actions)
    {
      hide Safe, IsRun, Registry.Valid, Registry.View, Transacted, AnswersFrom, ReplayStep, Continues;
      reconnecting, phase := false, Serving;
      Record(Confirm);
    }

    /** The last step has opened the gate. */
    ghost predicate OutageOver()
      reads this
    {
      && !reconnecting && phase.Serving? && 0 < since < |actions| == |states| - 1
      && actions[since - 1].CloseGate? && states[since - 1].registry == before
      && actions[|actions| - 1].Confirm?
      && forall k :: since <= k < |actions| ==> states[k].reconnecting
    }

    /** One attempt: a fresh master, the reverse tunnel, the replay, publication, and
        the wait for the watcher. It begins at once and does not fail without a reason. */
    method Attempt() returns (ok: bool, ghost ran: seq<Attempted<Command>>)
      requires Valid() && Outage() && phase.Retrying? && !stop && now < deadline
      modifies `now, `heartbeat, `stop, `reconnecting, `phase, `strays, `states, `actions, `commands
      modifies registry`forwards, registry.ssh
      ensures Valid() && now >= old(now)
      ensures if ok then OutageOver() else Outage() && phase.Retrying?
      ensures commands == old(commands) + ran
      ensures |states| == |actions| + 1 && |actions| > |old(actions)| + 1
      ensures Continues(old(states), old(actions) + [Recovery.Action.BeginAttempt], states, actions)
      ensures registry.ssh.starts == old(registry.ssh.starts) + [!actions[|actions| - 1].Reconnect?]
      ensures ok ==> InTurn(ran, COMMANDS, true)
      ensures var t := states[|actions| - 1];
              var ssh := registry.ssh;
              !ok ==>
                && Excused(t, actions[|actions| - 1], old(now), ran)
                && (actions[|actions| - 1].Replay? ==>
                      && old(ssh.log) <= ssh.log && old(ssh.looks) <= ssh.looks
                      && exists e :: ReplayRefused(old(registry.forwards), Over(t), old(ssh.free),
                                                   ssh.looks[|old(ssh.looks)|..], ssh.log[|old(ssh.log)|..], e))
    {
      hide *;
      var started := now;
      BeginAttempt();
      AttemptBegun(old(states), states, actions);
      Meanwhile(0);
      Spelled();
      Excuses(View(), started);
      ok := Connect();
      ran := [];
      if !ok {
        return;
      }
      Meanwhile(0);
      ok, ran := Rebuild(started);
    }

    /** The rest of an attempt that has a master. */
    method Rebuild(started: nat) returns (ok: bool, ghost ran: seq<Attempted<Command>>)
      requires Valid() && Outage() && phase == Connected(started)
      modifies `now, `heartbeat, `stop, `reconnecting, `phase, `strays, `states, `actions, `commands
      modifies registry`forwards
      modifies registry.ssh`alive, registry.ssh`live, registry.ssh`free, registry.ssh`log, registry.ssh`looks
      ensures Valid() && now >= old(now)
      ensures if ok then OutageOver() else Outage() && phase.Retrying?
      ensures commands == old(commands) + ran
      ensures |states| == |actions| + 1 && |actions| > |old(actions)|
      ensures forall before, past :: Continues(before, past, old(states), old(actions)) ==>
                                       Continues(before, past, states, actions)
      ensures !actions[|actions| - 1].Reconnect?
      ensures ok ==> InTurn(ran, COMMANDS, true)
      ensures var t := states[|actions| - 1];
              var ssh := registry.ssh;
              !ok ==>
                && Excused(t, actions[|actions| - 1], started, ran)
                && (actions[|actions| - 1].Replay? ==>
                      && old(ssh.log) <= ssh.log && old(ssh.looks) <= ssh.looks
                      && exists e :: ReplayRefused(old(registry.forwards), Over(t), old(ssh.free),
                                                   ssh.looks[|old(ssh.looks)|..], ssh.log[|old(ssh.log)|..], e))
    {
      hide *;
      ok := Run(ReverseTunnel);
      ran := [Attempted(ReverseTunnel, ok)];
      Spelled();
      Excuses(View(), started);
      if !ok {
        Abandon();
        return;
      }
      ok := ReplayTunnels();
      if !ok {
        return;
      }
      ghost var more;
      ok, more := Announce(started);
      ran := ran + more;
    }

    /** After the replay: the state is saved, the session installed and the plugin woken,
        and then the watcher is waited for. */
    method Announce(started: nat) returns (ok: bool, ghost ran: seq<Attempted<Command>>)
      requires Valid() && Outage() && phase == Restored(started)
      modifies `now, `heartbeat, `stop, `reconnecting, `phase, `strays, `states, `actions, `commands
      modifies registry.ssh`alive, registry.ssh`live
      ensures Valid() && now >= old(now)
      ensures if ok then OutageOver() else Outage() && phase.Retrying?
      ensures commands == old(commands) + ran
      ensures |states| == |actions| + 1 && |actions| > |old(actions)| 
      ensures !actions[|actions| - 1].Replay? && !actions[|actions| - 1].Reconnect?
      ensures forall before, past :: Continues(before, past, old(states), old(actions)) ==>
                                       Continues(before, past, states, actions)
      ensures var all := [Attempted(ReverseTunnel, true)] + ran;
              if ok then InTurn(all, COMMANDS, true)
              else Excused(states[|actions| - 1], actions[|actions| - 1], started, all)
    {
      hide *;
      Spelled();
      ok, ran := Prepare(started);
      Spelled();
      if ok {
        ghost var looks;
        ok, looks := AwaitHeartbeat(started);
        LookMeans(View(), started);
        Spelled();
        Excuses(View(), started);
      }
      if !ok {
        Abandon();
        Spelled();
      }
    }

    method Prepare(started: nat) returns (ok: bool, ghost ran: seq<Attempted<Command>>)
      requires Valid() && Outage() && phase == Restored(started)
      modifies `now, `heartbeat, `stop, `strays, `states, `actions, `commands
      modifies registry.ssh`alive, registry.ssh`live
      ensures Valid() && Outage() && phase == Restored(started) && now >= old(now)
      ensures commands == old(commands) + ran
      ensures |actions| > |old(actions)|
      ensures forall before, past :: Continues(before, past, old(states), old(actions)) ==>
                                       Continues(before, past, states, actions)
      ensures var all := [Attempted(ReverseTunnel, true)] + ran;
              if ok then all == AllRun() else Excused(View(), Fail, started, all)
    {
      hide *;
      ok, ran := Publish(started);
      AllRunMeans();
      if ok {
        ok, ran := RunNext(CheckConfig, 2, started, ran);
      }
      if ok {
        ok, ran := RunNext(Install, 3, started, ran);
      }
      if ok {
        ok, ran := RunNext(Wake, 4, started, ran);
      }
      ExcusesAt(View(), started);
    }

    /** One more command, the n-th of an attempt; meanwhile time passes. */
    method RunNext(command: Command, n: nat, started: nat, ghost earlier: seq<Attempted<Command>>)
      returns (ok: bool, ghost ran: seq<Attempted<Command>>)
      requires Valid() && Outage() && phase == Restored(started)
      requires 2 <= n < 5 && |AllRun()| == 5 && earlier == AllRun()[1..n] && AllRun()[n] == Attempted(command, true)
      modifies `now, `heartbeat, `stop, `strays, `states, `actions, `commands
      modifies registry.ssh`alive, registry.ssh`live
      ensures Valid() && Outage() && phase == Restored(started) && now >= old(now) && |actions| > |old(actions)|
      ensures commands == old(commands) + [Attempted(command, ok)] && ran == earlier + [Attempted(command, ok)]
      ensures forall before, past :: Continues(before, past, old(states), old(actions)) ==>
                                       Continues(before, past, states, actions)
      ensures if ok then ran == AllRun()[1..n + 1]
              else Excused(View(), Fail, started, [Attempted(ReverseTunnel, true)] + ran)
    {
      hide *;
      ok := Run(command);
      Meanwhile(0);
      ran := earlier + [Attempted(command, ok)];
      Spelled();
      AllRunMeans();
      ExcusesAt(View(), started);
      assert [Attempted(ReverseTunnel, true)] + ran == AllRun()[..n] + [AllRun()[n].(ok := ok)];
      assert ok ==> ran == AllRun()[1..n + 1];
    }

    /** Saves the state, and goes on only when there is time left. */
    method Publish(started: nat) returns (ok: bool, ghost ran: seq<Attempted<Command>>)
      requires Valid() && Outage() && phase == Restored(started)
      modifies `now, `heartbeat, `stop, `strays, `states, `actions, `commands
      modifies registry.ssh`alive, registry.ssh`live
      ensures Valid() && Outage() && phase == Restored(started) && now >= old(now)
      ensures commands == old(commands) + ran && |actions| > |old(actions)|
      ensures forall before, past :: Continues(before, past, old(states), old(actions)) ==>
                                       Continues(before, past, states, actions)
      ensures ok ==> ran == [Attempted(SaveState, true)]
      ensures !ok ==> Excused(View(), Fail, started, [Attempted(ReverseTunnel, true)] + ran)
    {
      hide *;
      Meanwhile(0);
      ok := Run(SaveState);
      ran := [Attempted(SaveState, ok)];
      assert [Attempted(ReverseTunnel, true)] + ran == [Attempted(ReverseTunnel, true), Attempted(SaveState, ok)];
      Spelled();
      Excuses(View(), started);
      LookMeans(View(), started);
      ok := ok && !stop && now < deadline;
    }

    method Run(command: Command) returns (ok: bool)
      requires Valid() && Outage()
      modifies `commands
      ensures Valid() && Outage() && View() == old(View())
      ensures commands == old(commands) + [Attempted(command, ok)]
    {
      hide Safe, IsRun, Registry.Valid, Registry.View;
      ok := *;
      commands := commands + [Attempted(command, ok)];
    }

    /** A command or a file operation: it works or it does not. */
    method Outside() returns (ok: bool) {
      ok := *;
    }

    /** What the record says about the attempts of this outage, and that the last of them
        was a second ago. */
    ghost predicate Trying(tries: seq<Try>, ran: seq<Attempted<Command>>)
      reads this
    {
      && |states| == |actions| + 1 && AllTried(states, actions, since, tries) && ran == CommandsOf(tries)
      && (tries != [] ==> RestBetween(states, tries[|tries| - 1], Try(|actions|, |actions|, [])))
    }

    /** One turn of the loop: an attempt and, when it fails, a second's rest. */
    method TryAgain(ghost tries: seq<Try>, ghost earlier: seq<Attempted<Command>>)
      returns (recovered: bool, ghost more: seq<Try>, ghost ran: seq<Attempted<Command>>)
      requires Valid() && Outage() && phase.Retrying? && !stop && now < deadline && Trying(tries, earlier)
      modifies `now, `heartbeat, `stop, `reconnecting, `phase, `strays, `states, `actions, `commands
      modifies registry`forwards, registry.ssh
      ensures Valid() && now >= old(now) && commands == old(commands) + ran && old(actions) <= actions
      ensures if recovered then OutageOver() && more == tries && InTurn(ran, COMMANDS, true)
              else
                && Outage() && phase.Retrying? && now > old(now) && Trying(more, earlier + ran)
                && |more| == |tries| + 1
    {
      hide *;
      ghost var seen, done := states, actions;
      Spelled();
      Spelt(tries, earlier);
      recovered, ran := Attempt();
      Spelled();
      ContinuesMeans(seen, done + [Recovery.Action.BeginAttempt], states, actions);
      more := tries;
      if recovered {
        return;
      }
      OneMoreTry(seen, done, since, tries, states, actions, ran);
      more := tries + [Try(|done|, |actions|, ran)];
      seen, done := states, actions;
      ContinuesMeans(seen, done, seen, done);
      Meanwhile(1000);
      Spelled();
      ContinuesMeans(seen, done, states, actions);
      Rested(seen, done, since, more, states, actions);
      RestMeans(states, more[|tries|], Try(|actions|, |actions|, []));
      Spelt(more, earlier + ran);
    }

    lemma Spelt(tries: seq<Try>, ran: seq<Attempted<Command>>)
      ensures Trying(tries, ran) <==>
                && |states| == |actions| + 1 && AllTried(states, actions, since, tries) && ran == CommandsOf(tries)
                && (tries != [] ==> RestBetween(states, tries[|tries| - 1], Try(|actions|, |actions|, [])))
      ensures tries != [] ==> forall try: Try :: try.from == |actions| ==>
                (RestBetween(states, tries[|tries| - 1], try) <==>
                 RestBetween(states, tries[|tries| - 1], Try(|actions|, |actions|, [])))
    {
      hide AllTried, CommandsOf;
    }

    /** One turn of the worker's loop that finds the transport gone. The first attempt begins
        at once; every one that fails has its reason; it gives up only at the deadline. */
    method Recover() returns (recovered: bool, ghost tries: seq<Try>)
      requires Valid() && phase.Serving? && !stop && (!registry.ssh.alive || Expired(View()))
      modifies this, registry`forwards, registry.ssh
      ensures Valid() && registry.next == old(registry.next)
      ensures Replayed(old(registry.forwards), registry.forwards)
      ensures recovered ==> !reconnecting && DistinctPorts(registry.forwards)
      ensures recovered && registry.ssh.alive ==>
                registry.ssh.live == TunnelsOf(registry.forwards, EnabledIds(registry.forwards))
      ensures !recovered ==> reconnecting && !registry.ssh.alive && registry.ssh.live == map[]
      ensures !recovered ==> (failed <==> !stop) && (stop || now >= deadline)
      ensures since == |old(actions)| + 1 <= |actions| && actions[since - 1].CloseGate?
      ensures !recovered ==>
                tries != [] && AllTried(states, actions, since, tries) && commands == old(commands) + CommandsOf(tries)
      ensures recovered ==>
                exists ran :: InTurn(ran, COMMANDS, true) && commands == old(commands) + CommandsOf(tries) + ran
    {
      hide *;
      registry.Unfold();
      BeginOutage();
      tries := [];
      recovered := false;
      ghost var earlier: seq<Attempted<Command>> := [];
      while !stop && now < deadline
        invariant Valid() && Outage() && phase.Retrying? && registry.next == old(registry.next)
        invariant before == old(registry.View()) && since == |old(actions)| + 1 <= |actions|
        invariant actions[since - 1].CloseGate?
        invariant Trying(tries, earlier) && commands == old(commands) + earlier
        invariant tries == [] ==> !stop && now < deadline
        decreases if stop then 0 else 1, deadline - now
      {
        ghost var ran;
        Spelt(tries, earlier);
        recovered, tries, ran := TryAgain(tries, earlier);
        if recovered {
          Recovered();
          return;
        }
        earlier := earlier + ran;
      }
      NotRecovered();
      Spelt(tries, earlier);
      if !stop {
        GiveUpAfter(tries);
      }
    }

    /** The gate closes and the old master goes; the budget begins. */
    method BeginOutage()
      requires Valid() && phase.Serving? && !stop && (!registry.ssh.alive || Expired(View()))
      modifies this, registry.ssh`alive, registry.ssh`live
      ensures Valid() && Outage() && phase.Retrying? && registry.next == old(registry.next)
      ensures before == old(registry.View()) && since == |old(actions)| + 1 <= |actions| && !stop && now < deadline
      ensures commands == old(commands) && Trying([], []) && actions[since - 1].CloseGate?
    {
      hide *;
      CloseGate();
      ghost var first, gone := states, actions;
      ContinuesMeans(first, gone, states, actions);
      Terminate();
      Spelled();
      ContinuesMeans(first, gone, states, actions);
      NoneTriedYet(first, gone, states, actions);
      Spelt([], []);
    }

    /** The budget is used up. */
    method GiveUpAfter(ghost tries: seq<Try>)
      requires Valid() && Outage() && phase.Retrying? && !stop && now >= deadline
      requires AllTried(states, actions, since, tries)
      modifies `phase, `failed, `states, `actions
      ensures Valid() && failed && old(actions) <= actions && AllTried(states, actions, since, tries)
    {
      hide *;
      Spelled();
      ghost var seen, done := states, actions;
      ContinuesMeans(seen, done, seen, done);
      Surrender();
      Spelled();
      ContinuesMeans(seen, done, states, actions);
      Rested(seen, done, since, tries, states, actions);
    }

    lemma Recovered()
      requires Valid() && OutageOver()
      ensures !reconnecting && Replayed(before.forwards, registry.forwards) && DistinctPorts(registry.forwards)
      ensures registry.ssh.alive ==> registry.ssh.live == TunnelsOf(registry.forwards, EnabledIds(registry.forwards))
    {
      hide Safe, Next, Replayed, TunnelsOf, EnabledIds, DistinctPorts, Registry.Valid;
      RecoveredOutage(states, actions, since - 1, |actions| - 1);
    }

    lemma NotRecovered()
      requires Valid() && Outage() && phase.Retrying?
      ensures reconnecting && !failed && Replayed(before.forwards, registry.forwards)
      ensures !registry.ssh.alive && registry.ssh.live == map[]
    {
      hide Next, Replayed, Registry.Valid, Entries, Backed, Truthful;
      Present();
      OutagesKeepEntries(states, actions, since, |actions|);
      assert Next(states[since - 1], actions[since - 1], states[since]);
      ClosingKeepsRegistry(states[since - 1], states[since]);
    }

    method Surrender()
      requires Valid() && Outage() && phase.Retrying? && !stop && now >= deadline
      modifies `phase, `failed, `states, `actions
      ensures Valid() && failed && now == old(now)
      ensures forall before, past :: Continues(before, past, old(states), old(actions)) ==>
                                       Continues(before, past, states, actions)
      ensures since == old(since) && commands == old(commands)
    {
      hide Safe, IsRun, Registry.Valid, Registry.View, Transacted, AnswersFrom, ReplayStep, Continues;
      phase, failed := GaveUp, true;
      Record(GiveUp);
    }
  }

  lemma Terminated(t: Transport, t': Transport)
    requires t.phase.Closing?
    requires t' == t.(registry := t.registry.(live := map[]), alive := false, phase := Retrying,
                      deadline := t.now + RECOVERY_TIMEOUT, strays := map[])
    ensures Next(t, Terminate, t')
  {
  }

  lemma Died(t: Transport, t': Transport)
    requires t' == t.(registry := t.registry.(live := map[]), strays := map[], alive := false)
    ensures Next(t, MasterDies, t')
  {
  }

  lemma Abandoned(t: Transport, t': Transport)
    requires t.phase.Connected? || t.phase.Restored?
    requires t' == t.(registry := t.registry.(live := map[]), strays := map[], alive := false, phase := Retrying)
    ensures Next(t, Fail, t')
  {
  }

  lemma ReplayedOrDropped(t: Transport, ok: bool, t': Transport)
    requires t.phase.Connected?
    requires ok ==>
               && t' == t.(phase := Restored(t.phase.started), registry := t'.registry)
               && Replayed(t.registry.forwards, t'.registry.forwards) && DistinctPorts(t'.registry.forwards)
               && t'.registry.next == t.registry.next
               && t'.registry.live == t.registry.live + TunnelsOf(t'.registry.forwards,
                    EnabledIds(t'.registry.forwards))
               && (!t.alive ==> EnabledIds(t'.registry.forwards) == {})
    requires !ok ==>
               t' == t.(registry := t.registry.(live := map[]), strays := map[], alive := false, phase := Retrying)
    ensures Next(t, Replay(ok), t')
  {
    hide Replayed, DistinctPorts, TunnelsOf, EnabledIds, Transacted, AnswersFrom;
  }

  lemma ClosingKeepsRegistry(t: Transport, t': Transport)
    requires Next(t, CloseGate, t')
    ensures t'.registry == t.registry
  {
  }
}
