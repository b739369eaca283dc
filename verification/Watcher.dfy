/** The loop of the remote watcher (`watch_loop` in src/bin/plugin/lifecycle.rs) and
    its event subscription (`EventSubscriber` in src/bin/plugin/herdr.rs): does a pane
    change ever go unnoticed? */
module Watcher {
  import opened Wrappers
  import opened Strings

  // ---------------------------------------------------------------------------
  // The event stream
  // ---------------------------------------------------------------------------

  predicate Blank(s: string) { forall i :: 0 <= i < |s| ==> IsWhitespace(s[i]) }

  predicate IsLine(s: string) {
    s != [] && s[|s| - 1] == '\n' && forall i :: 0 <= i < |s| - 1 ==> s[i] != '\n'
  }

  /** Where the first line ends. */
  function LineEnd(s: string): (r: Option<nat>)
    ensures r.Some? ==> r.value < |s| && s[r.value] == '\n' && forall i :: 0 <= i < r.value ==> s[i] != '\n'
    ensures r.None? ==> forall i :: 0 <= i < |s| ==> s[i] != '\n'
  {
    if s == [] then None
    else if s[0] == '\n' then Some(0)
    else
      var rest := LineEnd(s[1..]);
      if rest.None? then None else Some(rest.value + 1)
  }

  lemma LineEndsThere(line: string, s: string, k: nat)
    requires IsLine(line) && line <= s && k < |s| && s[k] == '\n' && forall i :: 0 <= i < k ==> s[i] != '\n'
    ensures line == s[..k + 1]
  {
    assert forall i :: 0 <= i < |line| ==> line[i] == s[i];
    assert |line| == k + 1;
  }

  ghost predicate AreLines(lines: seq<string>) { forall l :: l in lines ==> IsLine(l) }

  /** Reading the unread lines from what has arrived of them: a whole line, */
  lemma ReadsFirstLine(lines: seq<string>, arrived: string, flying: string)
    requires AreLines(lines) && arrived + flying == Flatten(lines) && LineEnd(arrived).Some?
    ensures var k := LineEnd(arrived).value;
            && lines != [] && lines[0] == arrived[..k + 1] && AreLines(lines[1..])
            && arrived[k + 1..] + flying == Flatten(lines[1..])
  {
    hide IsLine, Flatten, AreLines;
    FlattenFirst(lines);
    var all, k := arrived + flying, LineEnd(arrived).value;
    assert forall i :: 0 <= i < |arrived| ==> all[i] == arrived[i];
    FirstIsLine(lines);
    LineEndsThere(lines[0], all, k);
    assert all[..k + 1] == arrived[..k + 1];
    SplitAt(arrived, flying, k + 1);
    SplitAt(lines[0], Flatten(lines[1..]), k + 1);
  }

  lemma FirstIsLine(lines: seq<string>)
    requires AreLines(lines) && lines != []
    ensures IsLine(lines[0]) && AreLines(lines[1..])
  {
    hide IsLine;
  }

  /** or part of one. */
  lemma ReadsPartOfLine(lines: seq<string>, arrived: string, flying: string)
    requires AreLines(lines) && arrived + flying == Flatten(lines) && LineEnd(arrived).None? && arrived != []
    ensures lines != [] && |arrived| < |lines[0]| && AreLines(TimedOut(lines, |arrived|))
    ensures flying == Flatten(TimedOut(lines, |arrived|))
  {
    hide IsLine, LineEnd, Flatten;
    FlattenFirst(lines);
    var all, first, n := arrived + flying, lines[0], |arrived|;
    NoLineEndYet(first, arrived, all);
    SuffixIsLine(first, n);
    FlattenCons(first[n..], lines[1..]);
    SplitAt(first, Flatten(lines[1..]), n);
    SplitAt(arrived, flying, n);
  }

  lemma SplitAt(s: string, t: string, n: nat)
    requires n <= |s|
    ensures (s + t)[n..] == s[n..] + t
  {
  }

  lemma NoLineEndYet(line: string, arrived: string, all: string)
    requires IsLine(line) && line <= all && arrived <= all && '\n' !in arrived
    ensures |arrived| < |line|
  {
    assert forall j :: 0 <= j < |arrived| ==> all[j] == arrived[j] && arrived[j] != '\n';
    assert all[|line| - 1] == line[|line| - 1];
  }

  lemma SuffixIsLine(line: string, n: nat)
    requires IsLine(line) && n < |line|
    ensures IsLine(line[n..])
  {
  }

  /** Some unread line will make the watcher look, or reconnect and look. */
  ghost predicate Pending(lines: seq<string>) { exists i :: 0 <= i < |lines| && !Blank(lines[i]) }

  /** A read that times out drops what it has read of the first line. */
  function TimedOut(lines: seq<string>, n: nat): seq<string>
    requires n == 0 || (lines != [] && n < |lines[0]|)
  {
    if n == 0 then lines else [lines[0][n..]] + lines[1..]
  }

  /** It drops the whole text of an event but not its line end. */
  predicate SwallowsText(lines: seq<string>, n: nat)
    requires n == 0 || (lines != [] && n < |lines[0]|)
  {
    n > 0 && !Blank(lines[0]) && Blank(lines[0][n..])
  }

  /** It does so to the only event that is waiting. */
  ghost predicate LosesText(lines: seq<string>, n: nat) {
    lines != [] && 0 < n < |lines[0]| && SwallowsText(lines, n) && !Pending(lines[1..])
  }

  /** Exactly then there was something to act on and nothing is left of it. */
  lemma TimedOutReadLoses(lines: seq<string>, n: nat)
    requires n == 0 || (lines != [] && n < |lines[0]|)
    ensures LosesText(lines, n) <==> Pending(lines) && !Pending(TimedOut(lines, n))
    ensures Pending(TimedOut(lines, n)) ==> Pending(lines)
  {
    hide Blank;
    if n > 0 {
      var after := TimedOut(lines, n);
      assert after[0] == lines[0][n..];
      forall i | 0 < i < |lines|
        ensures after[i] == lines[i] == lines[1..][i - 1]
      {
      }
      if Blank(lines[0]) {
        BlankSuffix(lines[0], n);
      }
      if Pending(lines[1..]) {
        var i :| 0 <= i < |lines[1..]| && !Blank(lines[1..][i]);
        assert !Blank(lines[i + 1]) && !Blank(after[i + 1]);
      }
    }
  }

  /** An event whose text arrived before the timeout and whose line end came after:
      what is left of it will not make the watcher look. */
  lemma SwallowedEventIsLost()
    ensures var lines := ["{}\n"];
            && AreLines(lines) && Pending(lines) && SwallowsText(lines, 2)
            && TimedOut(lines, 2) == ["\n"] && !Pending(TimedOut(lines, 2))
  {
    var lines := ["{}\n"];
    assert !IsWhitespace(lines[0][0]);
    assert lines[0][2..] == "\n";
  }

  lemma BlankSuffix(s: string, n: nat)
    requires Blank(s) && n <= |s|
    ensures Blank(s[n..])
  {
  }

  /** Dropping a first line that is blank loses nothing. */
  lemma BlankLineIsNothing(lines: seq<string>)
    requires lines != [] && Blank(lines[0])
    ensures Pending(lines[1..]) <==> Pending(lines)
  {
    hide Blank;
    if Pending(lines) {
      var i :| 0 <= i < |lines| && !Blank(lines[i]);
      assert !Blank(lines[1..][i - 1]);
    }
    if Pending(lines[1..]) {
      var i :| 0 <= i < |lines[1..]| && !Blank(lines[1..][i]);
      assert !Blank(lines[i + 1]);
    }
  }

  // ---------------------------------------------------------------------------
  // The loop
  // ---------------------------------------------------------------------------

  /** What a line that was read says: nothing when it is blank, otherwise an event, or
      something that ends the subscription. */
  function Judgement(line: string, isEvent: string -> bool): Result<bool, ()> {
    if Blank(line) then Ok(false) else if isEvent(line) then Ok(true) else Err(())
  }

  /** What a read gives, from what had arrived when it ended and whether the stream had
      ended too: the first line; at the end of the stream what is left; or a timeout. */
  function WaitOutcome(have: string, ended: bool, isEvent: string -> bool): Result<bool, ()> {
    match LineEnd(have)
    case Some(k) => Judgement(have[..k + 1], isEvent)
    case None => if !ended then Ok(false) else if have == [] then Err(()) else Judgement(have, isEvent)
  }

  /** What the watcher does in a turn. */
  datatype WatchStep =
    | Subscribed(ok: bool)
    | Scanned
    | Waited(r: Result<bool, ()>)
    | Slept
    /** Whether any session file is left. */
    | Listed(any: bool)

  /** The steps of one turn: without a subscription it tries to get one, and looks if it
      has; it waits for an event, or just sleeps; it ends when no session is left; and
      it looks after an event or for another reason. */
  function TurnSteps(subscribed: bool, connects: bool, r: Result<bool, ()>, any: bool, other: bool): seq<WatchStep> {
    (if subscribed then [] else [Subscribed(connects)] + if connects then [Scanned] else [])
    + [if subscribed || connects then Waited(r) else Slept]
    + [Listed(any)]
    + if any && (((subscribed || connects) && r == Ok(true)) || other) then [Scanned] else []
  }

  class PaneWatcher {
    /** Pane changes so far, and how many had happened when the last scan began. */
    var changes: nat
    var seen: nat
    /** Whether the watcher holds a subscription, and whether the server ended it. */
    var subscribed: bool
    var closed: bool
    /** What the server sent and has not been read: as lines, and as the part that
        has arrived and the part that is still on its way. */
    ghost var lines: seq<string>
    var arrived: string
    var flying: string
    /** The timed-out read, if any since the last scan began, that has dropped the text
        of the only waiting event but not its line end: the lines that were unread, and
        how much of the first of them had arrived. */
    ghost var swallowed: Option<(seq<string>, nat)>
    /** Which lines are events: JSON texts that report no error. */
    const isEvent: string -> bool
    ghost var log: seq<WatchStep>

    ghost predicate Valid()
      reads this
    {
      && AreLines(lines)
      && arrived + flying == Flatten(lines)
      && seen <= changes
      && (swallowed.Some? ==> LosesText(swallowed.value.0, swallowed.value.1))
    }

    /** Every change was there when the last scan began, or an event about it waits to
        be read, or the next subscription will be followed by a scan. */
    ghost predicate Noticed()
      reads this
    {
      !subscribed || closed || seen == changes || Pending(lines) || swallowed.Some?
    }

    constructor (isEvent: string -> bool)
      ensures Valid() && !subscribed && swallowed.None? && log == [] && this.isEvent == isEvent
    {
      this.isEvent, log := isEvent, [];
      changes, seen, subscribed, closed, lines, arrived, flying, swallowed := 0, 0, false, false, [], [], [], None;
    }

    /** A pane changes; subscribers are told in one line. */
    method PaneChanges(body: string)
      requires Valid() && !Blank(body) && '\n' !in body
      modifies `changes, `lines, `flying
      ensures Valid() && changes == old(changes) + 1 && (subscribed && !closed ==> Pending(lines))
      ensures !(subscribed && !closed) ==> lines == old(lines)
    {
      changes := changes + 1;
      if subscribed && !closed {
        var line := body + "\n";
        FlattenPushed(lines, line);
        EventIsLine(body);
        ghost var more := lines + [line];
        assert !Blank(more[|lines|]);
        assert arrived + (flying + line) == (arrived + flying) + line;
        lines, flying := more, flying + line;
      }
    }

    /** Anything may happen outside: changes, arriving bytes, the end of the stream. */
    method Meanwhile()
      requires Valid()
      modifies `changes, `lines, `arrived, `flying, `closed
      ensures Valid() && (old(Noticed()) ==> Noticed())
      ensures changes > old(changes) ==> Noticed()
      ensures (old(closed) ==> closed) && old(arrived) <= arrived
    {
      hide Blank, Pending, IsLine, Flatten, AreLines;
      var n: nat := *;
      while n > 0
        invariant Valid() && closed == old(closed) && arrived == old(arrived)
        invariant old(Noticed()) || changes > old(changes) ==> Noticed()
      {
        var body := EventText();
        PaneChanges(body);
        n := n - 1;
      }
      var k: nat := *;
      if 0 <= k <= |flying| {
        assert (arrived + flying[..k]) + flying[k..] == arrived + flying;
        arrived, flying := arrived + flying[..k], flying[k..];
      }
      var ends: bool := *;
      closed := closed || ends;
    }

    method EventText() returns (body: string)
      ensures !Blank(body) && '\n' !in body
    {
      body := "{}";
      assert !IsWhitespace(body[0]);
    }

    /** `scan_once`: it sees at least what had happened when it began. */
    method Scan()
      requires Valid()
      modifies `seen, `changes, `lines, `arrived, `flying, `closed, `swallowed, `log
      ensures Valid() && Noticed() && swallowed.None? && log == old(log) + [Scanned]
      ensures old(closed) ==> closed
    {
      seen, swallowed, log := changes, None, log + [Scanned];
      Meanwhile();
    }

    /** `EventSubscriber::connect`. */
    method Connect() returns (ok: bool)
      requires Valid() && !subscribed
      modifies `subscribed, `closed, `lines, `arrived, `flying, `swallowed, `log
      ensures Valid() && subscribed == ok && log == old(log) + [Subscribed(ok)]
    {
      ok := *;
      log := log + [Subscribed(ok)];
      if ok {
        subscribed, closed, lines, arrived, flying, swallowed := true, false, [], [], [], None;
      }
    }

    /** `EventSubscriber::wait`: an event, nothing within the timeout, or an error. */
    method Wait() returns (r: Result<bool, ()>, ghost have: string)
      requires Valid() && subscribed
      modifies `changes, `lines, `arrived, `flying, `closed, `swallowed, `log
      ensures Valid() && log == old(log) + [Waited(r)]
      ensures old(arrived) <= have && r == WaitOutcome(have, closed, isEvent)
      ensures arrived == if LineEnd(have).Some? then have[LineEnd(have).value + 1..] else []
      ensures r == Ok(false) && old(Noticed()) ==> Noticed()
      ensures swallowed != old(swallowed) ==>
                && r == Ok(false) && swallowed.Some?
                && lines == TimedOut(swallowed.value.0, swallowed.value.1) && !Pending(lines)
    {
      Meanwhile();
      have := arrived;
      if LineEnd(arrived).Some? {
        r := ReadLine();
      } else if closed {
        r := LastRead();
      } else {
        TimeOut();
        r := Ok(false);
      }
      log := log + [Waited(r)];
    }

    /** A whole line has arrived. A blank one says nothing. */
    method ReadLine() returns (r: Result<bool, ()>)
      requires Valid() && LineEnd(arrived).Some?
      modifies `lines, `arrived
      ensures Valid() && arrived == old(arrived)[LineEnd(old(arrived)).value + 1..]
      ensures r == Judgement(old(arrived)[..LineEnd(old(arrived)).value + 1], isEvent)
      ensures r == Ok(false) && old(Noticed()) ==> Noticed()
    {
      hide Blank, IsLine, Flatten, Pending;
      ReadsFirstLine(lines, arrived, flying);
      var end := LineEnd(arrived).value;
      var line := arrived[..end + 1];
      ghost var before := lines;
      lines, arrived := lines[1..], arrived[end + 1..];
      if Blank(line) {
        BlankLineIsNothing(before);
        return Ok(false);
      }
      r := if isEvent(line) then Ok(true) else Err(());
    }

    /** What has been read of a line is dropped. */
    method TimeOut()
      requires Valid() && LineEnd(arrived).None?
      modifies `lines, `arrived, `swallowed
      ensures Valid() && arrived == [] && (old(Noticed()) ==> Noticed())
      ensures swallowed != old(swallowed) ==>
                && swallowed == Some((old(lines), |old(arrived)|)) && LosesText(old(lines), |old(arrived)|)
                && lines == TimedOut(old(lines), |old(arrived)|) && !Pending(lines)
    {
      hide Blank, IsLine, Flatten, Pending, LineEnd, AreLines;
      ghost var after := lines;
      if arrived != [] {
        ReadsPartOfLine(lines, arrived, flying);
        TimedOutReadLoses(lines, |arrived|);
        if LosesText(lines, |arrived|) {
          swallowed := Some((lines, |arrived|));
        }
        after := TimedOut(lines, |arrived|);
      }
      lines, arrived := after, [];
      assert [] + flying == flying;
    }

    /** At the end of the stream: what is left without a line end, or nothing. */
    method LastRead() returns (r: Result<bool, ()>)
      requires Valid() && closed && LineEnd(arrived).None?
      modifies `lines, `arrived, `flying
      ensures Valid() && arrived == []
      ensures r == if old(arrived) == [] then Err(()) else Judgement(old(arrived), isEvent)
    {
      if arrived == [] {
        return Err(());
      }
      var rest := arrived;
      lines, arrived, flying := [], [], [];
      if Blank(rest) {
        return Ok(false);
      }
      r := if isEvent(rest) then Ok(true) else Err(());
    }

    /** Without a subscription there is nothing to wait for. */
    method Sleep()
      modifies `log
      ensures log == old(log) + [Slept]
    {
      log := log + [Slept];
    }

    /** Whether any session file is left. */
    method ListSessions() returns (any: bool)
      modifies `log
      ensures log == old(log) + [Listed(any)]
    {
      any := *;
      log := log + [Listed(any)];
    }

    /** Before the loop: subscribe first, then look. */
    method Begin()
      requires Valid() && !subscribed
      modifies this
      ensures Valid() && Noticed() && swallowed.None? && log == old(log) + [Subscribed(subscribed), Scanned]
    {
      var ok := Connect();
      Meanwhile();
      Scan();
    }

    /** One turn of the loop; false when the watcher ends. */
    method Turn() returns (running: bool, ghost connects: bool, ghost r: Result<bool, ()>, ghost other: bool)
      requires Valid() && Noticed()
      modifies this
      ensures Valid() && (running ==> Noticed())
      ensures log == old(log) + TurnSteps(old(subscribed), connects, r, running, other)
      ensures subscribed <==> (old(subscribed) || connects) && r.Ok?
    {
      hide Pending, Flatten, IsLine, WaitOutcome, LineEnd, TurnSteps, AreLines, LosesText;
      ghost var before := subscribed;
      connects := Subscribe();
      Meanwhile();
      var received;
      received, r := WaitOrSleep();
      Meanwhile();
      running := ListSessions();
      var otherReason: bool := *;
      other := otherReason;
      if running && (received || otherReason) {
        Scan();
      }
      Meanwhile();
      StepsJoin(before, connects, r, running, other);
    }

    /** Without a subscription the watcher tries to get one, and looks if it has. */
    method Subscribe() returns (connects: bool)
      requires Valid() && Noticed()
      modifies this
      ensures Valid() && Noticed() && (subscribed <==> old(subscribed) || connects)
      ensures log == old(log) + if old(subscribed) then []
                                else [Subscribed(connects)] + if connects then [Scanned] else []
    {
      hide Pending, Flatten, IsLine, LineEnd;
      connects := false;
      if !subscribed {
        connects := Connect();
        Meanwhile();
        if connects {
          Scan();
        }
      }
    }

    method WaitOrSleep() returns (received: bool, ghost r: Result<bool, ()>)
      requires Valid() && Noticed()
      modifies this
      ensures Valid() && (received <==> old(subscribed) && r == Ok(true)) && (subscribed <==> old(subscribed) && r.Ok?)
      ensures log == old(log) + [if old(subscribed) then Waited(r) else Slept]
      ensures !received ==> Noticed()
    {
      hide Pending, Flatten, IsLine, LineEnd, WaitOutcome;
      received, r := false, Ok(false);
      if subscribed {
        var event;
        ghost var have;
        event, have := Wait();
        r := event;
        if event.Ok? {
          received := event.value;
        } else {
          subscribed := false;
        }
      } else {
        Sleep();
      }
    }
  }

  lemma StepsJoin(subscribed: bool, connects: bool, r: Result<bool, ()>, any: bool, other: bool)
    ensures TurnSteps(subscribed, connects, r, any, other) ==
            (if subscribed then [] else [Subscribed(connects)] + if connects then [Scanned] else [])
            + [if subscribed || connects then Waited(r) else Slept]
            + [Listed(any)]
            + if any && (((subscribed || connects) && r == Ok(true)) || other) then [Scanned] else []
  {
  }

  lemma EventIsLine(body: string)
    requires '\n' !in body && !Blank(body)
    ensures IsLine(body + "\n") && !Blank(body + "\n")
  {
    var i :| 0 <= i < |body| && !IsWhitespace(body[i]);
    assert (body + "\n")[i] == body[i];
  }
}
