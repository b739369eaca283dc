/** What the record of a recovery must say about its attempts (the worker of
    src/bin/local/transport.rs): none fails without a reason, and the wait for the
    watcher goes on exactly as long as there is reason to wait. */
module Attempts {
  import opened Journals
  import opened Detect
  import opened RegistrySpec
  import opened ForwardRegistry
  import opened Recovery

  /** What an attempt asks of the outside world after it has a master: the tunnel back to
      the companion, saving the state, the check of the session's configuration, its
      installation on the server, and waking the plugin there. The tunnels are replayed
      after the first of these. */
  datatype Command = ReverseTunnel | SaveState | CheckConfig | Install | Wake

  const COMMANDS: seq<Command> := [ReverseTunnel, SaveState, CheckConfig, Install, Wake]

  function AllRun(): seq<Attempted<Command>> {
    [Attempted(ReverseTunnel, true), Attempted(SaveState, true), Attempted(CheckConfig, true),
     Attempted(Install, true), Attempted(Wake, true)]
  }

  predicate Resumed(t: Transport, started: nat) { t.heartbeat.Some? && t.heartbeat.value >= started }

  predicate Over(t: Transport) { t.stop || t.now >= t.deadline }

  /** Why an attempt failed: the state before its last step, that step, and the commands it
      had run. There was no master; a command was refused; the replay failed; or, after
      the state was saved or while waiting for the watcher, it was asked to stop or out of
      time, or the master died before a fresh heartbeat was seen. */
  ghost predicate Excused(t: Transport, last: Action, started: nat, ran: seq<Attempted<Command>>) {
    match last
    case Reconnect(ok) => !ok && t.phase == Connecting(started) && ran == []
    case Replay(ok) => !ok && t.phase == Connected(started) && InTurn(ran, COMMANDS[..1], true)
    case Fail =>
      if |ran| == 1 then t.phase == Connected(started) && InTurn(ran, COMMANDS, false)
      else
        && t.phase == Restored(started)
        && (|| InTurn(ran, COMMANDS, false)
            || (InTurn(ran, COMMANDS[..2], true) && Over(t))
            || (InTurn(ran, COMMANDS, true) && (Over(t) || (!t.alive && !Resumed(t, started)))))
    case _ => false
  }

  /** A failed attempt: where it begins and ends in the record, and the commands it ran. */
  datatype Try = Try(from: nat, to: nat, ran: seq<Attempted<Command>>)

  ghost predicate Tried(states: seq<Transport>, actions: seq<Action>, try: Try) {
    && try.from < try.to < |states| == |actions| + 1 && actions[try.from].BeginAttempt?
    && Excused(states[try.to - 1], actions[try.to - 1], states[try.from].now, try.ran)
  }

  /** These are all attempts since this step, in order, and there is a second's rest
      between two of them. */
  ghost predicate AllTried(states: seq<Transport>, actions: seq<Action>, since: nat, tries: seq<Try>) {
    && (forall k :: 0 <= k < |tries| ==> since <= tries[k].from && Tried(states, actions, tries[k]))
    && (forall i :: since <= i < |actions| && actions[i].BeginAttempt? ==> BeginsOne(tries, i))
    && (forall k :: 0 <= k < |tries| - 1 ==> RestBetween(states, tries[k], tries[k + 1]))
  }

  ghost predicate BeginsOne(tries: seq<Try>, i: nat) { exists k :: 0 <= k < |tries| && tries[k].from == i }

  ghost predicate RestBetween(states: seq<Transport>, try: Try, next: Try) {
    try.to < next.from < |states| && states[next.from].now >= states[try.to].now + 1000
  }

  function CommandsOf(tries: seq<Try>): seq<Attempted<Command>> {
    if tries == [] then [] else CommandsOf(tries[..|tries| - 1]) + tries[|tries| - 1].ran
  }

  /** One wait, and what others did meanwhile. */
  ghost predicate Waited(before: seq<Action>, after: seq<Action>, pause: nat) {
    && |before| < |after| && before <= after && after[|before|].Wait? && after[|before|].time >= pause
    && forall i :: |before| < i < |after| ==> after[i].Heartbeat? || after[i].AskToStop? || after[i].MasterDies?
  }

  /** No attempt begins here. */
  ghost predicate Quiet(before: seq<Action>, after: seq<Action>) {
    before <= after && forall i :: |before| <= i < |after| ==> !after[i].BeginAttempt?
  }

  /** The states at which the wait for the watcher looked: there was reason to go on
      waiting at all but the last, and one wait of 200 ms between two of them. */
  ghost predicate Looks(states: seq<Transport>, actions: seq<Action>, started: nat, looks: seq<nat>) {
    && looks != [] && |states| == |actions| + 1
    && (forall k :: 0 <= k < |looks| ==> looks[k] <= |actions|)
    && forall k :: 0 <= k < |looks| - 1 ==> LooksAgain(states, actions, started, looks, k)
  }

  ghost predicate LooksAgain(states: seq<Transport>, actions: seq<Action>, started: nat, looks: seq<nat>, k: nat)
    requires k < |looks| - 1 && looks[k] < |states| && looks[k] <= |actions| && looks[k + 1] <= |actions|
  {
    && GoesOnWaiting(states[looks[k]], started)
    && looks[k] < looks[k + 1] && Waited(actions[..looks[k]], actions[..looks[k + 1]], 200)
  }

  predicate GoesOnWaiting(t: Transport, started: nat) { !Over(t) && !Resumed(t, started) && t.alive }

  /** Every question of the replay is answered alike: no time passes within it. */
  function Always(answer: bool): nat -> bool { _ => answer }

  ghost predicate ReplayRefused(fw: Forwards, cancelled: bool, free: Port -> bool, looks: seq<Port -> bool>,
                                calls: seq<SshCall>, e: Error) {
    exists order, started, stuck :: ReplayFailed(fw, Always(cancelled), free, looks, calls, order, started, stuck, e)
  }

  /** The states and commands with which an attempt may end. */
  lemma Excuses(t: Transport, started: nat)
    ensures var c1, c2 := Attempted(ReverseTunnel, true), Attempted(SaveState, true);
            var c3, c4, c5 := Attempted(CheckConfig, true), Attempted(Install, true), Attempted(Wake, true);
            && (t.phase == Connecting(started) ==> Excused(t, Reconnect(false), started, []))
            && (t.phase == Connected(started) ==>
                  && Excused(t, Fail, started, [c1.(ok := false)])
                  && Excused(t, Replay(false), started, [c1]))
            && (t.phase == Restored(started) ==>
                  && Excused(t, Fail, started, [c1, c2.(ok := false)])
                  && (Over(t) ==> Excused(t, Fail, started, [c1, c2]))
                  && Excused(t, Fail, started, [c1, c2, c3.(ok := false)])
                  && Excused(t, Fail, started, [c1, c2, c3, c4.(ok := false)])
                  && Excused(t, Fail, started, [c1, c2, c3, c4, c5.(ok := false)])
                  && (Over(t) || (!t.alive && !Resumed(t, started)) ==>
                        Excused(t, Fail, started, [c1, c2, c3, c4, c5])))
            && AllRun() == [c1, c2, c3, c4, c5] && InTurn([c1, c2, c3, c4, c5], COMMANDS, true)
  {
  }

  lemma AllRunMeans()
    ensures AllRun() == [Attempted(ReverseTunnel, true), Attempted(SaveState, true), Attempted(CheckConfig, true),
                         Attempted(Install, true), Attempted(Wake, true)]
  {
  }

  /** A command that is refused after the replay ends the attempt. */
  lemma ExcusesAt(t: Transport, started: nat)
    ensures t.phase == Restored(started) ==>
              forall n :: 1 <= n < 5 ==>
                            Excused(t, Fail, started, AllRun()[..n] + [AllRun()[n].(ok := false)])
    ensures forall n :: 1 <= n < 5 ==> AllRun()[..n] + [AllRun()[n]] == AllRun()[..n + 1]
    ensures AllRun()[..5] == AllRun()
  {
  }

  lemma FirstLook(states: seq<Transport>, actions: seq<Action>, started: nat)
    requires |states| == |actions| + 1
    ensures Looks(states, actions, started, [|actions|])
  {
  }

  lemma LookAgain(states: seq<Transport>, actions: seq<Action>, started: nat, looks: seq<nat>,
                  states': seq<Transport>, actions': seq<Action>)
    requires Looks(states, actions, started, looks) && looks[|looks| - 1] == |actions|
    requires states <= states' && |states'| == |actions'| + 1 && Waited(actions, actions', 200)
    requires GoesOnWaiting(states[|actions|], started)
    ensures Looks(states', actions', started, looks + [|actions'|])
  {
    hide GoesOnWaiting, Waited;
    var more := looks + [|actions'|];
    WaitedMeans(actions, actions', 200);
    assert actions'[..|actions|] == actions && actions'[..|actions'|] == actions';
    forall k | 0 <= k < |more| - 1
      ensures LooksAgain(states', actions', started, more, k)
    {
      if k < |looks| - 1 {
        assert LooksAgain(states, actions, started, looks, k);
        assert actions'[..looks[k]] == actions[..looks[k]] && actions'[..looks[k + 1]] == actions[..looks[k + 1]];
      }
    }
  }

  lemma LooksLater(states: seq<Transport>, actions: seq<Action>, started: nat, looks: seq<nat>,
                   states': seq<Transport>, actions': seq<Action>)
    requires Looks(states, actions, started, looks)
    requires states <= states' && actions <= actions' && |states'| == |actions'| + 1
    ensures Looks(states', actions', started, looks)
  {
    hide GoesOnWaiting, Waited;
    forall k | 0 <= k < |looks| - 1
      ensures LooksAgain(states', actions', started, looks, k)
    {
      assert LooksAgain(states, actions, started, looks, k);
      assert actions'[..looks[k]] == actions[..looks[k]] && actions'[..looks[k + 1]] == actions[..looks[k + 1]];
    }
  }

  lemma WaitedMeans(before: seq<Action>, after: seq<Action>, pause: nat)
    requires Waited(before, after, pause)
    ensures |before| < |after| && before <= after
  {
  }

  /** The record has gone on without a new attempt. */
  ghost predicate Continues(before: seq<Transport>, past: seq<Action>, states: seq<Transport>, actions: seq<Action>) {
    before <= states && Quiet(past, actions)
  }

  lemma ContinuesMeans(before: seq<Transport>, past: seq<Action>, states: seq<Transport>, actions: seq<Action>)
    ensures Continues(before, past, states, actions) ==> before <= states && past <= actions
    ensures Continues(states, actions, states, actions)
  {
  }

  lemma OneStep(states: seq<Transport>, actions: seq<Action>, t: Transport, action: Action)
    requires !action.BeginAttempt?
    ensures forall before, past :: Continues(before, past, states, actions) ==>
                                     Continues(before, past, states + [t], actions + [action])
  {
  }

  /** What a look at the heartbeat decides. */
  lemma LookMeans(t: Transport, started: nat)
    ensures Over(t) <==> t.stop || t.now >= t.deadline
    ensures Resumed(t, started) <==> t.heartbeat.Some? && t.heartbeat.value >= started
    ensures GoesOnWaiting(t, started) <==> !Over(t) && !Resumed(t, started) && t.alive
  {
  }

  lemma AttemptBegun(before: seq<Transport>, states: seq<Transport>, actions: seq<Action>)
    requires before <= states
    ensures Continues(before, actions, states, actions)
  {
  }

  lemma NoneTriedYet(first: seq<Transport>, before: seq<Action>, states: seq<Transport>, actions: seq<Action>)
    requires Continues(first, before, states, actions)
    ensures AllTried(states, actions, |before|, []) && CommandsOf([]) == []
  {
  }

  /** What has been tried stays tried. */
  lemma StaysTried(states: seq<Transport>, actions: seq<Action>, try: Try, states': seq<Transport>,
                   actions': seq<Action>)
    requires Tried(states, actions, try) && states <= states' && actions <= actions'
    requires |states'| == |actions'| + 1
    ensures Tried(states', actions', try)
  {
    hide Excused;
  }

  /** A rest after the last attempt. */
  lemma {:induction false} Rested(states: seq<Transport>, actions: seq<Action>, since: nat, tries: seq<Try>,
                                  states': seq<Transport>, actions': seq<Action>)
    requires AllTried(states, actions, since, tries) && Continues(states, actions, states', actions')
    requires |states'| == |actions'| + 1 && |states| == |actions| + 1
    ensures AllTried(states', actions', since, tries)
  {
    hide Tried, BeginsOne;
    forall k | 0 <= k < |tries|
      ensures since <= tries[k].from && Tried(states', actions', tries[k])
    {
      StaysTried(states, actions, tries[k], states', actions');
    }
    forall i | since <= i < |actions'| && actions'[i].BeginAttempt?
      ensures BeginsOne(tries, i)
    {
      assert i < |actions| && actions[i] == actions'[i];
    }
    forall k | 0 <= k < |tries| - 1
      ensures RestBetween(states', tries[k], tries[k + 1])
    {
      assert RestBetween(states, tries[k], tries[k + 1]);
    }
  }

  lemma BeginsOneMore(tries: seq<Try>, try: Try, i: nat)
    requires BeginsOne(tries, i) || i == try.from
    ensures BeginsOne(tries + [try], i)
  {
    if i != try.from {
      var k :| 0 <= k < |tries| && tries[k].from == i;
      assert (tries + [try])[k].from == i;
    } else {
      assert (tries + [try])[|tries|].from == i;
    }
  }

  lemma IsTried(states: seq<Transport>, actions: seq<Action>, from: nat, ran: seq<Attempted<Command>>)
    requires |states| == |actions| + 1 && from < |actions| && actions[from].BeginAttempt?
    requires Excused(states[|actions| - 1], actions[|actions| - 1], states[from].now, ran)
    ensures Tried(states, actions, Try(from, |actions|, ran))
  {
    hide Excused;
  }

  lemma {:induction false} OneMoreTry(states: seq<Transport>, actions: seq<Action>, since: nat, tries: seq<Try>,
                                      states': seq<Transport>, actions': seq<Action>, ran: seq<Attempted<Command>>)
    requires AllTried(states, actions, since, tries) && |states| == |actions| + 1 && since <= |actions|
    requires tries != [] ==> RestBetween(states, tries[|tries| - 1], Try(|actions|, |actions'|, ran))
    requires |states'| == |actions'| + 1 && |actions'| > |actions| + 1
    requires Continues(states, actions + [BeginAttempt], states', actions')
    requires Excused(states'[|actions'| - 1], actions'[|actions'| - 1], states[|actions|].now, ran)
    ensures var more := tries + [Try(|actions|, |actions'|, ran)];
            AllTried(states', actions', since, more) && CommandsOf(more) == CommandsOf(tries) + ran
  {
    hide Excused, Tried, BeginsOne;
    var try := Try(|actions|, |actions'|, ran);
    var more := tries + [try];
    assert more[..|tries|] == tries;
    assert actions' == (actions + [BeginAttempt]) + actions'[|actions| + 1..];
    IsTried(states', actions', |actions|, ran);
    forall k | 0 <= k < |more|
      ensures since <= more[k].from && Tried(states', actions', more[k])
    {
      if k < |tries| {
        StaysTried(states, actions, tries[k], states', actions');
      }
    }
    forall i | since <= i < |actions'| && actions'[i].BeginAttempt?
      ensures BeginsOne(more, i)
    {
      assert i < |actions| ==> actions[i] == actions'[i];
      assert i <= |actions|;
      BeginsOneMore(tries, try, i);
    }
    forall k | 0 <= k < |more| - 1
      ensures RestBetween(states', more[k], more[k + 1])
    {
      assert RestBetween(states, more[k], more[k + 1]);
    }
  }

  lemma RestMeans(states: seq<Transport>, try: Try, next: Try)
    ensures RestBetween(states, try, next) <==>
            try.to < next.from < |states| && states[next.from].now >= states[try.to].now + 1000
  {
  }

  lemma StillWaited(before: seq<Action>, middle: seq<Action>, action: Action, pause: nat)
    requires Waited(before, middle, pause) && (action.Heartbeat? || action.AskToStop? || action.MasterDies?)
    ensures Waited(before, middle + [action], pause)
  {
  }

  lemma ReplayWasRefused(fw: Forwards, cancelled: bool, free: Port -> bool, looks: seq<Port -> bool>,
                         calls: seq<SshCall>, order: seq<string>, started: seq<Forward>, stuck: string, e: Error)
    requires ReplayFailed(fw, Always(cancelled), free, looks, calls, order, started, stuck, e)
    ensures ReplayRefused(fw, cancelled, free, looks, calls, e)
  {
    hide ReplayFailed;
  }
}
