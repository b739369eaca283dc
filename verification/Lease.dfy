/** The two clocks that must fit together: the companion's lease and recovery budget
    (src/bin/local/transport.rs) and the watcher's grace before it reaps a session
    (`heartbeat_once` in src/bin/plugin/lifecycle.rs). Times are milliseconds. */
module Lease {
  import opened Wrappers
  import opened Recovery
  import opened Journals

  const REMOTE_SESSION_GRACE := 60_000

  // ---------------------------------------------------------------------------
  // The watcher's book-keeping
  // ---------------------------------------------------------------------------

  /** Since when a session has been failing, after one more heartbeat. */
  function FailedSince(since: Option<nat>, ok: bool, now: nat): Option<nat> {
    if ok then None else if since.Some? then since else Some(now)
  }

  /** The session has been failing for longer than the grace. */
  predicate Overdue(since: Option<nat>, now: nat) { since.Some? && now - since.value >= REMOTE_SESSION_GRACE }

  function Lookup(failures: map<string, nat>, p: string): Option<nat> {
    if p in failures then Some(failures[p]) else None
  }

  /** One heartbeat: whether it was answered, and when that was known. */
  datatype Beat = Beat(ok: bool, time: nat)

  /** What became of one session. */
  datatype State = Kept | Reaped | Stuck

  datatype Ending = Finished | CleanupFailed

  /** The heartbeats of these sessions, in order. */
  ghost function Answered(sessions: seq<string>, beats: map<string, Beat>): seq<Attempted<string>>
    requires forall p :: p in sessions ==> p in beats
  {
    seq(|sessions|, i requires 0 <= i < |sessions| => Attempted(sessions[i], beats[sessions[i]].ok))
  }

  ghost function CleanedUp(sessions: seq<string>): seq<Attempted<string>> {
    seq(|sessions|, i requires 0 <= i < |sessions| => Attempted(sessions[i], true))
  }

  /** What is known of one session after its turn. */
  ghost predicate JudgedOne(known: map<string, nat>, failures: map<string, nat>, p: string, beat: Beat, reaped: bool,
                            lifecycle: bool, stuck: bool) {
    var since := FailedSince(Lookup(known, p), beat.ok, beat.time);
    if reaped then lifecycle && Overdue(since, beat.time) && p !in failures
    else Lookup(failures, p) == since && (lifecycle && !stuck ==> !Overdue(since, beat.time))
  }

  /** A round that has come as far as these sessions; the clean-up of `stuck` failed. */
  ghost predicate Round(done: seq<string>, known: map<string, nat>, failures: map<string, nat>,
                        beats: map<string, Beat>, reaped: set<string>, lifecycle: bool, start: nat, now: nat,
                        stuck: Option<string>) {
    && |beats| == |done| && (forall p :: p in beats <==> p in done)
    && (forall p :: p in beats ==> start <= beats[p].time <= now)
    && (forall p :: p !in beats ==> Lookup(failures, p) == Lookup(known, p))
    && reaped <= beats.Keys
    && forall p :: p in beats ==> JudgedOne(known, failures, p, beats[p], p in reaped, lifecycle, stuck == Some(p))
  }

  lemma RoundBegins(sessions: seq<string>, known: map<string, nat>, lifecycle: bool, now: nat)
    ensures Round(sessions[..0], known, known, map[], {}, lifecycle, now, now, None)
    ensures Answered(sessions[..0], map[]) == [] && CleanedUp([]) == [] && Cleaned([], {})
  {
  }

  lemma RoundOneMore(done: seq<string>, known: map<string, nat>, before: map<string, nat>, beats: map<string, Beat>,
                     reaped: set<string>, lifecycle: bool, start: nat, earlier: nat, p: string, beat: Beat,
                     state: State, failures: map<string, nat>, now: nat)
    requires start <= earlier <= now && p !in done
    requires Round(done, known, before, beats, reaped, lifecycle, start, earlier, None)
    requires start <= beat.time <= now && forall q :: q != p ==> Lookup(failures, q) == Lookup(before, q)
    requires var since := FailedSince(Lookup(before, p), beat.ok, beat.time);
             match state
             case Kept => Lookup(failures, p) == since && (lifecycle ==> !Overdue(since, beat.time))
             case Reaped => lifecycle && Overdue(since, beat.time) && p !in failures
             case Stuck => Lookup(failures, p) == since
    ensures Round(done + [p], known, failures, beats[p := beat], if state.Reaped? then reaped + {p} else reaped,
                  lifecycle, start, now, if state.Stuck? then Some(p) else None)
  {
    hide FailedSince, Overdue;
    var more := beats[p := beat];
    var all := if state.Reaped? then reaped + {p} else reaped;
    var stuck := if state.Stuck? then Some(p) else None;
    forall q | q in more
      ensures JudgedOne(known, failures, q, more[q], q in all, lifecycle, stuck == Some(q))
    {
      if q != p {
        assert JudgedOne(known, before, q, beats[q], q in reaped, lifecycle, false);
        assert Lookup(failures, q) == Lookup(before, q);
      } else {
        assert Lookup(before, p) == Lookup(known, p) && p !in reaped;
      }
    }
  }

  lemma RoundMeans(done: seq<string>, known: map<string, nat>, failures: map<string, nat>, beats: map<string, Beat>,
                   reaped: set<string>, lifecycle: bool, start: nat, now: nat, stuck: Option<string>)
    requires Round(done, known, failures, beats, reaped, lifecycle, start, now, stuck)
    ensures |beats| == |done| && (forall p :: p in beats <==> p in done) && reaped <= beats.Keys
    ensures forall p :: p in beats ==> start <= beats[p].time <= now
    ensures forall p :: p !in beats ==> Lookup(failures, p) == Lookup(known, p)
    ensures forall p :: p in beats ==>
              var since := FailedSince(Lookup(known, p), beats[p].ok, beats[p].time);
              if p in reaped then lifecycle && Overdue(since, beats[p].time) && p !in failures
              else Lookup(failures, p) == since && (lifecycle && stuck.None? ==> !Overdue(since, beats[p].time))
  {
    hide FailedSince, Overdue, Lookup;
    forall p | p in beats
      ensures JudgedOne(known, failures, p, beats[p], p in reaped, lifecycle, stuck == Some(p))
    {
    }
  }

  lemma RoundKeys(done: seq<string>, known: map<string, nat>, failures: map<string, nat>, beats: map<string, Beat>,
                  reaped: set<string>, lifecycle: bool, start: nat)
    ensures forall now, stuck :: Round(done, known, failures, beats, reaped, lifecycle, start, now, stuck) ==>
                                   forall p :: p in beats <==> p in done
  {
  }

  lemma IsNext(sessions: seq<string>, n: nat)
    requires n < |sessions| && forall i, j :: 0 <= i < j < |sessions| ==> sessions[i] != sessions[j]
    ensures sessions[n] !in sessions[..n] && sessions[..n + 1] == sessions[..n] + [sessions[n]]
  {
  }

  /** The session whose clean-up ended the round. */
  ghost function StuckAt(sessions: seq<string>, n: nat, ending: Ending): Option<string>
    requires n <= |sessions|
  {
    if ending.Finished? || n == 0 then None else Some(sessions[n - 1])
  }

  lemma WhereStuck(sessions: seq<string>, n: nat)
    requires n <= |sessions|
    ensures StuckAt(sessions, n, Finished) == None
    ensures n > 0 ==> StuckAt(sessions, n, CleanupFailed) == Some(sessions[n - 1])
  {
  }

  /** The order in which the sessions were cleaned up. */
  ghost predicate Cleaned(order: seq<string>, reaped: set<string>) { forall p :: p in order <==> p in reaped }

  lemma CleanedOneMore(order: seq<string>, reaped: set<string>, p: string)
    requires Cleaned(order, reaped)
    ensures Cleaned(order + [p], reaped + {p}) && CleanedUp(order + [p]) == CleanedUp(order) + [Attempted(p, true)]
  {
  }

  lemma AnsweredOneMore(sessions: seq<string>, n: nat, beats: map<string, Beat>, beat: Beat)
    requires n < |sessions| && (forall p :: p in beats <==> p in sessions[..n]) && sessions[n] !in beats
    ensures Answered(sessions[..n + 1], beats[sessions[n] := beat]) ==
            Answered(sessions[..n], beats) + [Attempted(sessions[n], beat.ok)]
  {
    forall i | 0 <= i < n
      ensures sessions[i] != sessions[n]
    {
      assert sessions[i] in sessions[..n];
    }
  }

  class Heartbeats {
    var failures: map<string, nat>
    var now: nat
    /** The heartbeats sent and whether they were answered; the clean-ups tried. */
    ghost var sent: seq<Attempted<string>>
    ghost var cleaned: seq<Attempted<string>>

    constructor ()
      ensures failures == map[] && sent == [] && cleaned == []
    {
      failures, now, sent, cleaned := map[], 0, [], [];
    }

    method Send(session: string) returns (answered: bool)
      modifies `sent
      ensures sent == old(sent) + [Attempted(session, answered)]
    {
      answered := *;
      sent := sent + [Attempted(session, answered)];
    }

    method CleanUp(session: string) returns (ok: bool)
      modifies `cleaned
      ensures cleaned == old(cleaned) + [Attempted(session, ok)]
    {
      ok := *;
      cleaned := cleaned + [Attempted(session, ok)];
    }

    method Clock() returns (time: nat)
      modifies `now
      ensures now == time >= old(now)
    {
      var later: nat := *;
      if later >= now { now := later; }
      time := now;
    }

    /** One session: a heartbeat, and the clean-up when it has failed for too long. */
    method One(p: string, lifecycle: bool) returns (state: State, ghost beat: Beat)
      modifies this
      ensures old(now) <= beat.time == now && sent == old(sent) + [Attempted(p, beat.ok)]
      ensures forall q :: q != p ==> Lookup(failures, q) == Lookup(old(failures), q)
      ensures var since := FailedSince(Lookup(old(failures), p), beat.ok, beat.time);
              match state
              case Kept =>
                Lookup(failures, p) == since && (lifecycle ==> !Overdue(since, beat.time)) && cleaned == old(cleaned)
              case Reaped =>
                && lifecycle && Overdue(since, beat.time) && p !in failures
                && cleaned == old(cleaned) + [Attempted(p, true)]
              case Stuck =>
                && lifecycle && Overdue(since, beat.time) && Lookup(failures, p) == since
                && cleaned == old(cleaned) + [Attempted(p, false)]
    {
      var ok := Send(p);
      var time := Clock();
      beat, state := Beat(ok, time), Kept;
      if ok {
        failures := failures - {p};
      } else {
        if p !in failures { failures := failures[p := time]; }
        if lifecycle && time - failures[p] >= REMOTE_SESSION_GRACE {
          var done := CleanUp(p);
          if !done {
            return Stuck, beat;
          }
          failures, state := failures - {p}, Reaped;
        }
      }
    }

    /** `heartbeat_once`: each session in turn; a session that has failed too long is
        cleaned up, and the first clean-up that fails ends the round. */
    method Once(sessions: seq<string>, lifecycle: bool)
      returns (ending: Ending, reaped: set<string>, ghost beats: map<string, Beat>, ghost order: seq<string>)
      requires forall i, j :: 0 <= i < j < |sessions| ==> sessions[i] != sessions[j]
      modifies this
      ensures forall p :: p in beats ==> p in sessions && old(now) <= beats[p].time <= now
      ensures ending.Finished? ==> forall p :: p in sessions ==> p in beats
      ensures ending.Finished? ==> failures.Keys <= set p | p in sessions
      ensures forall p :: p in sessions && p !in beats ==> Lookup(failures, p) == Lookup(old(failures), p)
      ensures forall p :: p in beats ==>
                var since := FailedSince(Lookup(old(failures), p), beats[p].ok, beats[p].time);
                if p in reaped then lifecycle && Overdue(since, beats[p].time) && p !in failures
                else Lookup(failures, p) == since
                     && (ending.Finished? && lifecycle ==> !Overdue(since, beats[p].time))
      ensures reaped <= beats.Keys
      ensures |beats| <= |sessions| && (forall p :: p in beats <==> p in sessions[..|beats|])
      ensures sent == old(sent) + Answered(sessions[..|beats|], beats)
      ensures Cleaned(order, reaped)
      ensures cleaned == old(cleaned) + CleanedUp(order) +
                         if ending.Finished? then []
                         else if |beats| > 0 then [Attempted(sessions[|beats| - 1], false)] else []
      ensures ending.CleanupFailed? ==> |beats| > 0
    {
      hide Round, FailedSince, Overdue, Answered, CleanedUp, Cleaned;
      ghost var known, start := failures, now;
      ghost var n;
      ending, reaped, beats, order, n := Sweep(sessions, lifecycle);
      RoundMeans(sessions[..n], known, failures, beats, reaped, lifecycle, start, now, StuckAt(sessions, n, ending));
      if ending.Finished? {
        assert sessions[..n] == sessions;
        failures := map p | p in failures && p in sessions :: failures[p];
      }
    }

    /** The loop over the sessions. */
    method Sweep(sessions: seq<string>, lifecycle: bool)
      returns (ending: Ending, reaped: set<string>, ghost beats: map<string, Beat>, ghost order: seq<string>,
               ghost count: nat)
      requires forall i, j :: 0 <= i < j < |sessions| ==> sessions[i] != sessions[j]
      modifies this
      ensures old(now) <= now && count <= |sessions| && (ending.Finished? ==> count == |sessions|)
      ensures ending.CleanupFailed? ==> count > 0
      ensures Round(sessions[..count], old(failures), failures, beats, reaped, lifecycle, old(now), now,
                    StuckAt(sessions, count, ending))
      ensures forall p :: p in sessions[..count] ==> p in beats
      ensures sent == old(sent) + Answered(sessions[..count], beats)
      ensures Cleaned(order, reaped)
      ensures cleaned == old(cleaned) + CleanedUp(order) +
                         if ending.Finished? || count == 0 then [] else [Attempted(sessions[count - 1], false)]
    {
      hide *;
      ghost var known, start := failures, now;
      ghost var heard, tried := sent, cleaned;
      RoundBegins(sessions, failures, lifecycle, now);
      reaped, beats, order := {}, map[], [];
      var n := 0;
      while n < |sessions|
        invariant n <= |sessions| && start <= now
        invariant Round(sessions[..n], known, failures, beats, reaped, lifecycle, start, now, None)
        invariant forall p :: p in sessions[..n] ==> p in beats
        invariant sent == heard + Answered(sessions[..n], beats)
        invariant Cleaned(order, reaped) && cleaned == tried + CleanedUp(order)
      {
        var p := sessions[n];
        IsNext(sessions, n);
        ghost var before, earlier := failures, now;
        var state;
        ghost var beat;
        state, beat := One(p, lifecycle);
        RoundOneMore(sessions[..n], known, before, beats, reaped, lifecycle, start, earlier, p, beat, state, failures,
                     now);
        CleanedOneMore(order, reaped, p);
        RoundKeys(sessions[..n], known, before, beats, reaped, lifecycle, start);
        AnsweredOneMore(sessions, n, beats, beat);
        beats := beats[p := beat];
        n := n + 1;
        if state.Stuck? {
          WhereStuck(sessions, n);
          return CleanupFailed, reaped, beats, order, n;
        }
        if state.Reaped? {
          reaped, order := reaped + {p}, order + [p];
        }
      }
      WhereStuck(sessions, n);
      return Finished, reaped, beats, order, n;
    }
  }

  // ---------------------------------------------------------------------------
  // One session, both sides, in time
  // ---------------------------------------------------------------------------

  /** The limits of the two remote commands of an attempt and the pause between two
      looks for the heartbeat; and the watcher's pause between two heartbeats. */
  const INSTALL_LIMIT := 3_000
  const WAKE_LIMIT := 3_000
  const LOOK_INTERVAL := 200
  const HEARTBEAT_INTERVAL := 2_000

  /** How long the worker may take to notice an expired lease and to terminate the
      old master. Nothing in the program bounds these two. */
  datatype Delays = Delays(poll: nat, terminate: nat)

  /** Where an attempt stands. The old session file leads nowhere, so heartbeats can
      arrive from `begun` on, when the new one is being installed. */
  datatype Attempt =
    | Between
    | Preparing(started: nat)
    | Installing(started: nat, begun: nat)
    | Waking(started: nat, begun: nat, since: nat)
    /** The next look for the heartbeat comes no later than `due`. */
    | Awaiting(started: nat, begun: nat, due: nat)

  datatype Gate = Open(since: nat) | Stopping(since: nat) | Rebuilding(deadline: nat, attempt: Attempt)

  /** `recorded`: when the companion last recorded a heartbeat. `next`: the watcher's
      next heartbeat is not before that. `unanswered`: the watcher has not seen the
      answer to the last one yet. `base`: `recorded` when the gate closed. */
  datatype Clocks = Clocks(
    now: nat,
    recorded: nat,
    next: nat,
    unanswered: bool,
    since: Option<nat>,
    gate: Gate,
    base: nat,
    reaped: bool)

  datatype Tick =
    | Pass(time: nat)
    /** The companion records a heartbeat; its answer reaches the watcher; it does not. */
    | Record
    | Answer
    | LoseAnswer
    /** A heartbeat that the companion never saw fails. */
    | Miss
    /** The watcher has reaped its only session and exited; `wake` starts a new one,
        which sends its first heartbeat at once. */
    | Restart
    | Close
    | Terminated
    | Connect
    | Install
    | Installed
    | Woken
    | Look
    | Fail

  function Max(a: nat, b: nat): nat { if a < b then b else a }

  /** Time cannot pass over what must happen: an expired lease is noticed within the
      poll delay, the master terminates in time, the commands of an attempt end within
      their limits, and recovery meets its deadline. */
  predicate MayPass(d: Delays, c: Clocks, time: nat) {
    match c.gate
    case Open(since) => c.now + time <= Max(c.recorded + LEASE_TIMEOUT, since) + d.poll
    case Stopping(since) => c.now + time <= since + d.terminate
    case Rebuilding(deadline, attempt) =>
      && c.now + time <= deadline
      && match attempt
         case Installing(_, begun) => c.now + time <= begun + INSTALL_LIMIT
         case Waking(_, _, since) => c.now + time <= since + WAKE_LIMIT
         case Awaiting(_, _, due) => c.now + time <= due
         case _ => true
  }

  /** The watcher's session file names a reverse tunnel that exists. */
  predicate Reachable(gate: Gate) { gate.Rebuilding? ==> !gate.attempt.Between? && !gate.attempt.Preparing? }

  function AfterMiss(c: Clocks): Clocks {
    var since := FailedSince(c.since, false, c.now);
    c.(next := c.now + HEARTBEAT_INTERVAL,
       since := if Overdue(since, c.now) then None else since,
       reaped := c.reaped || Overdue(since, c.now))
  }

  /** A heartbeat recorded before an attempt began does not count for it; the clock
      has moved on between the two. */
  ghost predicate Ticks(d: Delays, c: Clocks, tick: Tick, c': Clocks) {
    match tick
    case Pass(time) => MayPass(d, c, time) && c' == c.(now := c.now + time)
    case Record =>
      && !c.unanswered && c.next <= c.now && Reachable(c.gate)
      && c' == c.(recorded := c.now, unanswered := true)
    case Answer =>
      && c.unanswered
      && c' == c.(next := c.now + HEARTBEAT_INTERVAL, since := FailedSince(c.since, true, c.now), unanswered := false)
    case LoseAnswer => c.unanswered && c' == AfterMiss(c).(unanswered := false)
    case Miss => !c.unanswered && c.next <= c.now && c' == AfterMiss(c)
    case Restart =>
      && c.reaped && !c.unanswered && c.gate.Rebuilding? && c.gate.attempt.Waking?
      && c' == c.(next := c.now, since := None)
    case Close => c.gate.Open? && c' == c.(gate := Stopping(c.now), base := c.recorded)
    case Terminated => c.gate.Stopping? && c' == c.(gate := Rebuilding(c.now + RECOVERY_TIMEOUT, Between))
    case Connect =>
      && c.gate.Rebuilding? && c.gate.attempt.Between? && c.now < c.gate.deadline && c.recorded < c.now
      && c' == c.(gate := c.gate.(attempt := Preparing(c.now)))
    case Install =>
      && c.gate.Rebuilding? && c.gate.attempt.Preparing? && c.now < c.gate.deadline
      && c' == c.(gate := c.gate.(attempt := Installing(c.gate.attempt.started, c.now)))
    case Installed =>
      && c.gate.Rebuilding? && c.gate.attempt.Installing?
      && c' == c.(gate := c.gate.(attempt := Waking(c.gate.attempt.started, c.gate.attempt.begun, c.now)))
    case Woken =>
      && c.gate.Rebuilding? && c.gate.attempt.Waking?
      && c' == c.(gate := c.gate.(attempt := Awaiting(c.gate.attempt.started, c.gate.attempt.begun, c.now)))
    case Look =>
      && c.gate.Rebuilding? && c.gate.attempt.Awaiting? && c.now < c.gate.deadline
      && c' == if c.recorded >= c.gate.attempt.started then c.(gate := Open(c.now))
               else c.(gate := c.gate.(attempt := c.gate.attempt.(due := c.now + LOOK_INTERVAL)))
    case Fail =>
      && c.gate.Rebuilding? && !c.gate.attempt.Between?
      && c' == c.(gate := c.gate.(attempt := Between))
  }

  ghost predicate IsHistory(d: Delays, states: seq<Clocks>, ticks: seq<Tick>) {
    && |states| == |ticks| + 1
    && forall i :: 0 <= i < |ticks| ==> Ticks(d, states[i], ticks[i], states[i + 1])
  }

  /** Both sides have just been in touch. */
  predicate InTouch(c: Clocks) {
    c.gate == Open(c.now) && c.recorded == c.now && !c.unanswered && c.since.None? && !c.reaped
  }

  ghost predicate AllAnswered(ticks: seq<Tick>) { forall k :: 0 <= k < |ticks| ==> !ticks[k].LoseAnswer? }

  /** Lease, termination and recovery together take no longer than the grace. */
  predicate Fits(d: Delays) {
    LEASE_TIMEOUT + d.poll + d.terminate + RECOVERY_TIMEOUT <= REMOTE_SESSION_GRACE
  }

  /** A heartbeat that counts for the attempt came through its own session file, and
      the next look comes soon after it. */
  ghost predicate FreshAttempt(c: Clocks, attempt: Attempt) {
    match attempt
    case Between => true
    case Preparing(started) => c.recorded < started <= c.now
    case Installing(started, begun) =>
      started <= begun <= c.now <= begun + INSTALL_LIMIT && (c.recorded >= started ==> c.recorded >= begun)
    case Waking(started, begun, since) =>
      && started <= begun <= since <= begun + INSTALL_LIMIT && since <= c.now <= since + WAKE_LIMIT
      && (c.recorded >= started ==> c.recorded >= begun)
    case Awaiting(started, begun, due) =>
      && started <= begun <= c.now <= due <= c.now + LOOK_INTERVAL
      && (c.recorded >= started ==> due <= c.recorded + INSTALL_LIMIT + WAKE_LIMIT + LOOK_INTERVAL)
  }

  /** How long ago the last recorded heartbeat can have been in each phase. */
  ghost predicate Bounded(d: Delays, c: Clocks) {
    && c.recorded <= c.now
    && match c.gate
       case Open(since) =>
         since <= c.recorded + LEASE_TIMEOUT && c.now <= c.recorded + LEASE_TIMEOUT + d.poll
       case Stopping(since) =>
         c.base <= c.recorded && since <= c.base + LEASE_TIMEOUT + d.poll && c.now <= since + d.terminate
       case Rebuilding(deadline, attempt) =>
         && c.base <= c.recorded && c.now <= deadline
         && deadline <= c.base + LEASE_TIMEOUT + d.poll + d.terminate + RECOVERY_TIMEOUT
         && FreshAttempt(c, attempt)
  }

  lemma PassKeepsBounded(d: Delays, c: Clocks, time: nat, c': Clocks)
    requires Bounded(d, c) && Ticks(d, c, Pass(time), c')
    ensures Bounded(d, c')
  {
  }

  /** The watcher's ticks leave the gate alone. */
  lemma WatcherKeepsBounded(d: Delays, c: Clocks, tick: Tick, c': Clocks)
    requires tick.Record? || tick.Answer? || tick.LoseAnswer? || tick.Miss? || tick.Restart?
    requires Bounded(d, c) && Ticks(d, c, tick, c')
    ensures Bounded(d, c')
  {
  }

  lemma OutageKeepsBounded(d: Delays, c: Clocks, tick: Tick, c': Clocks)
    requires tick.Close? || tick.Terminated? || tick.Connect? || tick.Fail?
    requires Bounded(d, c) && Ticks(d, c, tick, c')
    ensures Bounded(d, c')
  {
  }

  lemma AttemptKeepsBounded(d: Delays, c: Clocks, tick: Tick, c': Clocks)
    requires tick.Install? || tick.Installed? || tick.Woken? || tick.Look?
    requires Bounded(d, c) && Ticks(d, c, tick, c')
    ensures Bounded(d, c')
  {
  }

  lemma TickKeepsBounded(d: Delays, c: Clocks, tick: Tick, c': Clocks)
    requires Bounded(d, c) && Ticks(d, c, tick, c')
    ensures Bounded(d, c')
  {
    hide Bounded, Ticks;
    match tick
    case Pass(time) => PassKeepsBounded(d, c, time, c');
    case Close => OutageKeepsBounded(d, c, tick, c');
    case Terminated => OutageKeepsBounded(d, c, tick, c');
    case Connect => OutageKeepsBounded(d, c, tick, c');
    case Fail => OutageKeepsBounded(d, c, tick, c');
    case Install => AttemptKeepsBounded(d, c, tick, c');
    case Installed => AttemptKeepsBounded(d, c, tick, c');
    case Woken => AttemptKeepsBounded(d, c, tick, c');
    case Look => AttemptKeepsBounded(d, c, tick, c');
    case _ => WatcherKeepsBounded(d, c, tick, c');
  }

  lemma {:induction false} HistoriesAreBounded(d: Delays, states: seq<Clocks>, ticks: seq<Tick>, i: nat)
    requires IsHistory(d, states, ticks) && InTouch(states[0]) && i < |states|
    ensures Bounded(d, states[i])
  {
    hide Ticks;
    if i > 0 {
      HistoriesAreBounded(d, states, ticks, i - 1);
      TickKeepsBounded(d, states[i - 1], ticks[i - 1], states[i]);
    }
  }

  /** Whenever the gate opens again, the heartbeat that opened it is a few seconds old,
      answered or not. */
  lemma ReopeningIsFresh(d: Delays, states: seq<Clocks>, ticks: seq<Tick>, i: nat)
    requires IsHistory(d, states, ticks) && InTouch(states[0]) && i < |ticks|
    requires !states[i].gate.Open? && states[i + 1].gate.Open?
    ensures states[i + 1].now <= states[i + 1].recorded + INSTALL_LIMIT + WAKE_LIMIT + LOOK_INTERVAL
  {
    HistoriesAreBounded(d, states, ticks, i);
    assert Ticks(d, states[i], ticks[i], states[i + 1]);
  }

  /** The watcher has not been failing for longer than that, and a session can be
      reaped only in the very moment in which recovery has missed its deadline. */
  ghost predicate Timely(d: Delays, c: Clocks) {
    && Bounded(d, c)
    && (c.reaped ==> c.gate.Rebuilding? && c.now == c.gate.deadline)
    && (c.since.Some? ==> c.since.value <= c.now)
    && (c.since.Some? && !c.unanswered ==> c.recorded <= c.since.value)
    && (c.since.Some? && !c.unanswered && !c.gate.Open? ==> c.base <= c.since.value)
  }

  lemma TickKeepsTimely(d: Delays, c: Clocks, tick: Tick, c': Clocks)
    requires Fits(d) && Timely(d, c) && Ticks(d, c, tick, c') && !tick.LoseAnswer?
    ensures Timely(d, c')
  {
    TickKeepsBounded(d, c, tick, c');
  }

  lemma {:induction false} HistoriesAreTimely(d: Delays, states: seq<Clocks>, ticks: seq<Tick>, i: nat)
    requires Fits(d) && IsHistory(d, states, ticks) && InTouch(states[0]) && AllAnswered(ticks) && i < |states|
    ensures Timely(d, states[i])
  {
    hide Ticks;
    if i > 0 {
      HistoriesAreTimely(d, states, ticks, i - 1);
      TickKeepsTimely(d, states[i - 1], ticks[i - 1], states[i]);
    }
  }

  /** Every recorded heartbeat is answered and every outage is repaired within the
      recovery deadline, the last one included; and yet the session was reaped. */
  ghost predicate ReapedThoughRepaired(d: Delays, states: seq<Clocks>, ticks: seq<Tick>) {
    && IsHistory(d, states, ticks) && InTouch(states[0]) && AllAnswered(ticks)
    && states[|ticks|].gate.Open? && states[|ticks|].reaped
  }

  // ---------------------------------------------------------------------------
  // What happens if the delays are longer
  // ---------------------------------------------------------------------------

  /** A history one tick longer. */
  lemma Longer(d: Delays, states: seq<Clocks>, ticks: seq<Tick>, tick: Tick, c: Clocks)
    returns (longer: seq<Clocks>, more: seq<Tick>)
    requires IsHistory(d, states, ticks) && Ticks(d, states[|ticks|], tick, c)
    ensures longer == states + [c] && more == ticks + [tick] && IsHistory(d, longer, more)
  {
    hide Ticks;
    longer, more := states + [c], ticks + [tick];
    forall i | 0 <= i < |more|
      ensures Ticks(d, longer[i], more[i], longer[i + 1])
    {
      if i < |ticks| {
        assert Ticks(d, states[i], ticks[i], states[i + 1]);
      }
    }
  }

  lemma Beginning(d: Delays, c: Clocks)
    ensures IsHistory(d, [c], [])
  {
  }

  /** The history so far begins in touch, has all answers, and ends like this. */
  ghost predicate LeadsTo(d: Delays, states: seq<Clocks>, ticks: seq<Tick>, c: Clocks) {
    IsHistory(d, states, ticks) && InTouch(states[0]) && AllAnswered(ticks) && states[|ticks|] == c
  }

  lemma Onwards(d: Delays, states: seq<Clocks>, ticks: seq<Tick>, from: Clocks, tick: Tick, c: Clocks)
    returns (longer: seq<Clocks>, more: seq<Tick>)
    requires LeadsTo(d, states, ticks, from) && Ticks(d, from, tick, c) && !tick.LoseAnswer?
    ensures LeadsTo(d, longer, more, c)
  {
    hide Ticks;
    longer, more := Longer(d, states, ticks, tick, c);
  }

  /** Right after the start-up heartbeat of a new watcher the transport dies, silently
      and for as long as the delays allow: the first heartbeat fails at time 0. */
  lemma LongOutage(d: Delays) returns (states: seq<Clocks>, ticks: seq<Tick>)
    ensures var t := LEASE_TIMEOUT + d.poll + d.terminate;
            LeadsTo(d, states, ticks,
                    Clocks(t, 0, 2_000, false, Some(0), Rebuilding(t + RECOVERY_TIMEOUT, Preparing(t)), 0, false))
  {
    hide LeadsTo;
    var c0 := Clocks(0, 0, 0, false, None, Open(0), 0, false);
    states, ticks := [c0], [];
    assert LeadsTo(d, states, ticks, c0) by { Begins(d, c0); }
    var c1 := c0.(since := Some(0), next := 2_000);
    states, ticks := Onwards(d, states, ticks, c0, Miss, c1);
    var c2 := c1.(now := LEASE_TIMEOUT + d.poll);
    states, ticks := Onwards(d, states, ticks, c1, Pass(LEASE_TIMEOUT + d.poll), c2);
    var c3 := c2.(gate := Stopping(c2.now));
    states, ticks := Onwards(d, states, ticks, c2, Close, c3);
    var c4 := c3.(now := c3.now + d.terminate);
    states, ticks := Onwards(d, states, ticks, c3, Pass(d.terminate), c4);
    var c5 := c4.(gate := Rebuilding(c4.now + RECOVERY_TIMEOUT, Between));
    states, ticks := Onwards(d, states, ticks, c4, Terminated, c5);
    var c6 := c5.(gate := c5.gate.(attempt := Preparing(c5.now)));
    states, ticks := Onwards(d, states, ticks, c5, Connect, c6);
  }

  lemma Begins(d: Delays, c: Clocks)
    requires InTouch(c)
    ensures LeadsTo(d, [c], [], c)
  {
  }

  /** The watcher gives up before the deadline, */
  lemma GivenUp(d: Delays) returns (states: seq<Clocks>, ticks: seq<Tick>)
    requires !Fits(d)
    ensures var t := LEASE_TIMEOUT + d.poll + d.terminate;
            var late := Max(REMOTE_SESSION_GRACE, t);
            LeadsTo(d, states, ticks,
                    Clocks(late, 0, late + 2_000, false, None, Rebuilding(t + RECOVERY_TIMEOUT, Preparing(t)), 0, true))
  {
    hide LeadsTo;
    states, ticks := LongOutage(d);
    var t := LEASE_TIMEOUT + d.poll + d.terminate;
    var late := Max(REMOTE_SESSION_GRACE, t);
    var c0 := Clocks(t, 0, 2_000, false, Some(0), Rebuilding(t + RECOVERY_TIMEOUT, Preparing(t)), 0, false);
    var c1 := c0.(now := late);
    states, ticks := Onwards(d, states, ticks, c0, Pass(late - t), c1);
    var c2 := c1.(next := late + 2_000, since := None, reaped := true);
    states, ticks := Onwards(d, states, ticks, c1, Miss, c2);
  }

  /** and then the attempt installs the session again, wakes a new watcher, */
  lemma InstalledAgain(d: Delays, states: seq<Clocks>, ticks: seq<Tick>, c: Clocks, t: nat)
    returns (longer: seq<Clocks>, more: seq<Tick>)
    requires LeadsTo(d, states, ticks, c) && c.reaped && !c.unanswered && c.since.None?
    requires c.gate.Rebuilding? && c.gate.attempt == Preparing(t) && c.now < c.gate.deadline
    ensures LeadsTo(d, longer, more, c.(next := c.now, gate := c.gate.(attempt := Waking(t, c.now, c.now))))
  {
    hide LeadsTo;
    var c1 := c.(gate := c.gate.(attempt := Installing(t, c.now)));
    longer, more := Onwards(d, states, ticks, c, Install, c1);
    var c2 := c1.(gate := c.gate.(attempt := Waking(t, c.now, c.now)));
    longer, more := Onwards(d, longer, more, c1, Installed, c2);
    longer, more := Onwards(d, longer, more, c2, Restart, c2.(next := c.now));
  }

  /** and hears from it. */
  lemma HeardAgain(d: Delays, states: seq<Clocks>, ticks: seq<Tick>, c: Clocks, t: nat)
    returns (longer: seq<Clocks>, more: seq<Tick>)
    requires LeadsTo(d, states, ticks, c) && c.reaped && !c.unanswered && c.next <= c.now
    requires c.gate.Rebuilding? && c.gate.attempt.Waking? && c.gate.attempt.started == t <= c.now < c.gate.deadline
    ensures ReapedThoughRepaired(d, longer, more)
  {
    hide LeadsTo;
    var c1 := c.(recorded := c.now, unanswered := true);
    longer, more := Onwards(d, states, ticks, c, Record, c1);
    var c2 := c1.(next := c.now + 2_000, since := None, unanswered := false);
    longer, more := Onwards(d, longer, more, c1, Answer, c2);
    var c3 := c2.(gate := c.gate.(attempt := Awaiting(t, c.gate.attempt.begun, c.now)));
    longer, more := Onwards(d, longer, more, c2, Woken, c3);
    var c4 := c3.(gate := Open(c.now));
    longer, more := Onwards(d, longer, more, c3, Look, c4);
    Arrived(d, longer, more, c4);
  }

  /** If the delays are too long, a session is reaped in an outage that is then repaired
      before its deadline. */
  lemma LongOutageIsReaped(d: Delays) returns (states: seq<Clocks>, ticks: seq<Tick>)
    requires !Fits(d)
    ensures ReapedThoughRepaired(d, states, ticks)
  {
    hide LeadsTo, ReapedThoughRepaired;
    var t := LEASE_TIMEOUT + d.poll + d.terminate;
    var late := Max(REMOTE_SESSION_GRACE, t);
    states, ticks := GivenUp(d);
    var c0 := Clocks(late, 0, late + 2_000, false, None, Rebuilding(t + RECOVERY_TIMEOUT, Preparing(t)), 0, true);
    states, ticks := InstalledAgain(d, states, ticks, c0, t);
    var c1 := c0.(next := late, gate := c0.gate.(attempt := Waking(t, late, late)));
    states, ticks := HeardAgain(d, states, ticks, c1, t);
  }

  lemma Arrived(d: Delays, states: seq<Clocks>, ticks: seq<Tick>, c: Clocks)
    requires LeadsTo(d, states, ticks, c) && c.gate.Open? && c.reaped
    ensures ReapedThoughRepaired(d, states, ticks)
  {
  }

  /** If every recorded heartbeat is answered, outages that are repaired within the
      recovery deadline never make the watcher reap the session, if and only if lease,
      termination and recovery fit into the grace. */
  lemma RepairedOutagesAreNotReaped(d: Delays)
    ensures Fits(d) <==> !exists states, ticks :: ReapedThoughRepaired(d, states, ticks)
  {
    hide IsHistory, Ticks, InTouch, AllAnswered;
    if Fits(d) {
      forall states: seq<Clocks>, ticks: seq<Tick>
        ensures !ReapedThoughRepaired(d, states, ticks)
      {
        if ReapedThoughRepaired(d, states, ticks) {
          BeginningStays(d, states, ticks);
          HistoriesAreTimely(d, states, ticks, |ticks|);
        }
      }
    } else {
      var states, ticks := LongOutageIsReaped(d);
    }
  }

  // ---------------------------------------------------------------------------
  // Why the answers are needed
  // ---------------------------------------------------------------------------

  /** Without answers the two sides drift apart: the companion keeps its lease while
      the watcher counts failures. The state after n rounds of ten seconds. */
  function Unanswered(n: nat): Clocks {
    Clocks(10_000 * n, 10_000 * n, if n == 0 then 0 else 10_000 * n + 2_000, false,
           if 0 < n < 7 then Some(10_000) else None, Open(0), 0, n == 7)
  }

  lemma {:induction false} UnansweredRounds(d: Delays, n: nat) returns (states: seq<Clocks>, ticks: seq<Tick>)
    requires n <= 7
    ensures IsHistory(d, states, ticks) && states[0] == Unanswered(0) && states[|ticks|] == Unanswered(n)
    ensures forall k :: 0 <= k < |states| ==> states[k].gate == Open(0)
  {
    hide IsHistory;
    if n == 0 {
      states, ticks := [Unanswered(0)], [];
      Beginning(d, Unanswered(0));
    } else {
      states, ticks := UnansweredRounds(d, n - 1);
      BeginningStays(d, states, ticks);
      var c := Unanswered(n - 1);
      var waited := c.(now := 10_000 * n);
      states, ticks := Longer(d, states, ticks, Pass(10_000), waited);
      var recorded := waited.(recorded := waited.now, unanswered := true);
      states, ticks := Longer(d, states, ticks, Record, recorded);
      states, ticks := Longer(d, states, ticks, LoseAnswer, Unanswered(n));
    }
  }

  lemma BeginningStays(d: Delays, states: seq<Clocks>, ticks: seq<Tick>)
    requires IsHistory(d, states, ticks)
    ensures |states| == |ticks| + 1
  {
  }

  /** The companion never saw an outage (the gate stays open), yet the session is reaped. */
  lemma UnansweredHeartbeatsAreReaped(d: Delays) returns (states: seq<Clocks>, ticks: seq<Tick>)
    ensures IsHistory(d, states, ticks) && InTouch(states[0]) && states[|ticks|].reaped
    ensures forall k :: 0 <= k < |states| ==> states[k].gate == Open(0)
  {
    states, ticks := UnansweredRounds(d, 7);
  }
}
