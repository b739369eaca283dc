/** Reloading the saved manual rules into a registry that has no entries yet
    (`restore_manual` of src/bin/local/companion.rs). */
module ManualReload {
  import opened Wrappers
  import opened Strings
  import opened Utf8
  import opened Detect
  import opened Model
  import opened RegistrySpec
  import opened RegistryProofs
  import opened Preferences
  import opened Operations

  /** The request a saved rule stands for. */
  function RuleRequest(m: ManualForward): ForwardRequest {
    ForwardRequest(m.remotePort, m.localPort, m.remoteHost, "manual", "Manual",
                   LoopbackUrl(m.remoteHost, m.remotePort, false), false, None, None)
  }

  ghost function ReloadOne(s: State, m: ManualForward, a: Answers): (State, Result<(Forward, bool), Error>) {
    Create(s, RuleRequest(m), m.enabled, a.free, a.first, a.now)
  }

  /** One creation per rule, in saved order, up to the first failure. */
  ghost function Reload(s: State, rules: seq<ManualForward>, answers: seq<Answers>): (State, Option<Error>)
    requires |answers| == |rules|
  {
    if rules == [] then (s, None) else
    var n := |rules| - 1;
    var (before, failure) := Reload(s, rules[..n], answers[..n]);
    if failure.Some? then (before, failure) else
    var (after, outcome) := ReloadOne(before, rules[n], answers[n]);
    (after, if outcome.Ok? then None else Some(outcome.error))
  }

  /** What SSH is asked meanwhile. */
  ghost function ReloadAsks(s: State, rules: seq<ManualForward>, answers: seq<Answers>): seq<SshCall>
    requires |answers| == |rules|
  {
    if rules == [] then [] else
    var n := |rules| - 1;
    var (before, failure) := Reload(s, rules[..n], answers[..n]);
    var m, a := rules[n], answers[n];
    ReloadAsks(s, rules[..n], answers[..n])
    + if failure.Some? then [] else CreateAsks(before, RuleRequest(m), m.enabled, a.free, a.first)
  }

  lemma NothingToReload(s: State)
    ensures Reload(s, [], []) == (s, None) && ReloadAsks(s, [], []) == []
  {
  }

  lemma ReloadOneMore(s: State, rules: seq<ManualForward>, answers: seq<Answers>, m: ManualForward, a: Answers)
    requires |answers| == |rules|
    ensures var (before, failure) := Reload(s, rules, answers);
            var (after, outcome) := ReloadOne(before, m, a);
            Reload(s, rules + [m], answers + [a]) ==
            if failure.Some? then (before, failure)
            else (after, if outcome.Ok? then None else Some(outcome.error))
    ensures var (before, failure) := Reload(s, rules, answers);
            ReloadAsks(s, rules + [m], answers + [a]) == ReloadAsks(s, rules, answers) +
            if failure.Some? then [] else CreateAsks(before, RuleRequest(m), m.enabled, a.free, a.first)
  {
    hide ReloadOne, CreateAsks;
    assert (rules + [m])[..|rules|] == rules && (answers + [a])[..|rules|] == answers;
  }

  ghost predicate KeyUnique(rules: seq<ManualForward>) {
    forall i, j :: 0 <= i < j < |rules| ==> RuleKey(rules[i]) != RuleKey(rules[j])
  }

  /** The rule names a port and a host that requests may name. */
  predicate Loadable(m: ManualForward) { m.remotePort != 0 && AcceptedHost(m.remoteHost) }

  /** A rule without a local port wants the remote one. */
  function WantedPort(m: ManualForward): Port { if m.localPort == 0 then m.remotePort else m.localPort }

  /** What the n-th rule needs in order to be loaded: an acceptable endpoint, room,
      and, when enabled, a usable port on which SSH opens the tunnel. */
  ghost predicate Served(s: State, rules: seq<ManualForward>, answers: seq<Answers>, n: nat)
    requires |answers| == |rules| && n < |rules|
  {
    var m, a := rules[n], answers[n];
    && Loadable(m) && n < MAX_FORWARDS
    && (m.enabled ==>
          FirstUsable(Reload(s, rules[..n], answers[..n]).0.forwards, None, a.free, WantedPort(m)).Some? && a.first)
  }

  ghost predicate AllServed(s: State, rules: seq<ManualForward>, answers: seq<Answers>)
    requires |answers| == |rules|
  {
    forall n :: 0 <= n < |rules| ==> Served(s, rules, answers, n)
  }

  /** The entry that a rule became: its own endpoint and switch, its own local port
      when paused, the least usable one from there on when enabled. */
  ghost predicate LoadedEntry(f: Forward, m: ManualForward, a: Answers, earlier: Forwards) {
    && Target(f) == RuleKey(m) && f.enabled == m.enabled && !f.automatic && f.paneId == "manual"
    && Some(f.localPort) == if m.enabled then FirstUsable(earlier, None, a.free, WantedPort(m)) else Some(WantedPort(m))
  }

  ghost predicate Loaded(s: State, rules: seq<ManualForward>, answers: seq<Answers>, s': State)
    requires |answers| == |rules|
  {
    && s'.next == s.next + |rules| && |s'.forwards| == |rules|
    && (forall id :: id in s'.forwards ==> IdOfRule(s, rules, id))
    && forall n :: 0 <= n < |rules| ==> LoadedAt(s, rules, answers, s'.forwards, n)
  }

  function NthId(s: State, n: nat): string { ForwardId(s.next + 1 + n) }

  ghost predicate IdOfRule(s: State, rules: seq<ManualForward>, id: string) {
    exists n :: 0 <= n < |rules| && id == NthId(s, n)
  }

  ghost predicate LoadedAt(s: State, rules: seq<ManualForward>, answers: seq<Answers>, fw: Forwards, n: nat)
    requires |answers| == |rules| && n < |rules|
  {
    var id := NthId(s, n);
    id in fw && LoadedEntry(fw[id], rules[n], answers[n], Reload(s, rules[..n], answers[..n]).0.forwards)
  }

  /** Only the endpoint decides whether a reloaded rule is acceptable. */
  lemma RuleRequestIsValid(m: ManualForward)
    ensures Validate(RuleRequest(m)).None? <==> Loadable(m)
  {
    hide *;
    RuleRequestParts(m);
    var r := RuleRequest(m);
    if Loadable(m) {
      ManualLabelsAreShort();
      ComposedRequestIsValid(r, false);
    }
    if Validate(r).None? {
      AcceptedRequest(r);
    }
  }

  lemma RuleRequestParts(m: ManualForward)
    ensures var r := RuleRequest(m);
            && r.remotePort == m.remotePort && r.remoteHost == m.remoteHost
            && r.paneId == "manual" && r.process == "Manual"
            && r.detectedUrl == LoopbackUrl(r.remoteHost, r.remotePort, false)
    ensures Loadable(m) <==> m.remotePort != 0 && AcceptedHost(m.remoteHost)
  {
    hide LoopbackUrl, AcceptedHost;
  }

  lemma ManualLabelsAreShort()
    ensures Trim("manual") == "manual" && ByteLength("manual") == 6 && ByteLength("Manual") == 6
  {
    hide *;
    LowerCaseIsPlain("manual");
    UrlCharactersArePlain("manual");
    AsciiLength("Manual");
  }

  lemma AsciiLength(s: string)
    requires forall i :: 0 <= i < |s| ==> s[i] as int < 0x80
    ensures ByteLength(s) == |s|
  {
    hide Encode;
    EncodeAscii(s);
  }

  lemma LowerCaseIsPlain(s: string)
    requires forall i :: 0 <= i < |s| ==> 'a' <= s[i] <= 'z'
    ensures forall i :: 0 <= i < |s| ==> UrlCharacter(s[i])
  {
  }

  /** A usable port is not bound by a truthful registry, so that SSH's word decides. */
  lemma UsableIsUnbound(s: State, free: Port -> bool, p: Port)
    requires Truthful(s.forwards, s.live) && Usable(s.forwards, None, free, p)
    ensures p !in s.live
  {
    assert !Claims(s.forwards, p);
  }

  lemma LoadNew(s: State, m: ManualForward, a: Answers)
    requires Inv(s) && s.next < U64_MAX && !Held(s.forwards, RuleKey(m))
    ensures var (s', outcome) := ReloadOne(s, m, a);
            && (outcome.Ok? <==>
                  && Loadable(m) && |s.forwards| < MAX_FORWARDS
                  && (m.enabled ==> FirstUsable(s.forwards, None, a.free, WantedPort(m)).Some? && a.first))
            && (outcome.Err? ==> s' == s)
            && (outcome.Ok? ==>
                  var id := ForwardId(s.next + 1);
                  && s'.next == s.next + 1 && id !in s.forwards && id in s'.forwards
                  && s'.forwards == s.forwards[id := s'.forwards[id]]
                  && LoadedEntry(s'.forwards[id], m, a, s.forwards))
  {
    hide Validate, Entries, Truthful, Held, FirstUsable, ForwardId, Usable, LoopbackUrl;
    var r := RuleRequest(m);
    RuleRequestIsValid(m);
    CreateCases(s, r, m.enabled, a.free, a.first, a.now);
    NextIdIsNew(s.forwards, s.next);
    var port := FirstUsable(s.forwards, None, a.free, WantedPort(m));
    if port.Some? {
      UsableIsUnbound(s, a.free, port.value);
    }
  }

  lemma {:induction false} PrefixesAgree(s: State, rules: seq<ManualForward>, answers: seq<Answers>,
                                         m: ManualForward, a: Answers, n: nat)
    requires |answers| == |rules| && n <= |rules|
    ensures (rules + [m])[..n] == rules[..n] && (answers + [a])[..n] == answers[..n]
    ensures n < |rules| ==> (Served(s, rules + [m], answers + [a], n) <==> Served(s, rules, answers, n))
    ensures n < |rules| ==> forall fw ::
              LoadedAt(s, rules + [m], answers + [a], fw, n) <==> LoadedAt(s, rules, answers, fw, n)
  {
    hide Reload, FirstUsable, LoadedEntry, ForwardId;
    assert (rules + [m])[..n] == rules[..n] && (answers + [a])[..n] == answers[..n];
  }

  lemma RuleIsNotHeld(s: State, rules: seq<ManualForward>, answers: seq<Answers>, s': State, m: ManualForward)
    requires |answers| == |rules| && Loaded(s, rules, answers, s') && KeyUnique(rules + [m])
    ensures !Held(s'.forwards, RuleKey(m))
  {
    hide ForwardId, Reload, FirstUsable, RuleKey;
    forall id
      ensures !Holds(s'.forwards, RuleKey(m), id)
    {
      if id in s'.forwards {
        assert IdOfRule(s, rules, id);
        var n :| 0 <= n < |rules| && id == NthId(s, n);
        assert LoadedAt(s, rules, answers, s'.forwards, n);
        assert (rules + [m])[n] == rules[n] && (rules + [m])[|rules|] == m;
      }
    }
  }

  lemma LoadedOneMore(s: State, rules: seq<ManualForward>, answers: seq<Answers>, before: State,
                      m: ManualForward, a: Answers, after: State)
    requires |answers| == |rules| && Loaded(s, rules, answers, before)
    requires Reload(s, rules, answers).0 == before
    requires var id := ForwardId(before.next + 1);
             && after.next == before.next + 1 && id !in before.forwards && id in after.forwards
             && after.forwards == before.forwards[id := after.forwards[id]]
             && LoadedEntry(after.forwards[id], m, a, before.forwards)
    ensures Loaded(s, rules + [m], answers + [a], after)
  {
    hide ForwardId, Reload, LoadedEntry;
    var more, known := rules + [m], answers + [a];
    assert more[..|rules|] == rules && known[..|rules|] == answers;
    assert LoadedAt(s, more, known, after.forwards, |rules|);
    forall n | 0 <= n < |rules|
      ensures LoadedAt(s, more, known, after.forwards, n)
    {
      assert LoadedAt(s, rules, answers, before.forwards, n);
      PrefixesAgree(s, rules, answers, m, a, n);
      assert NthId(s, n) in before.forwards;
    }
    forall id | id in after.forwards
      ensures IdOfRule(s, more, id)
    {
      if id in before.forwards {
        assert IdOfRule(s, rules, id);
      } else {
        assert id == NthId(s, |rules|);
      }
    }
  }

  lemma ServedOneMore(s: State, rules: seq<ManualForward>, answers: seq<Answers>, m: ManualForward, a: Answers)
    requires |answers| == |rules|
    ensures AllServed(s, rules + [m], answers + [a]) <==>
            AllServed(s, rules, answers) && Served(s, rules + [m], answers + [a], |rules|)
  {
    hide Served;
    forall n | 0 <= n < |rules|
      ensures Served(s, rules + [m], answers + [a], n) <==> Served(s, rules, answers, n)
    {
      PrefixesAgree(s, rules, answers, m, a, n);
    }
  }

  /** Reloading a list without two rules for one endpoint works exactly when every
      rule is served, and then there is one manual entry per rule, faithful to it. */
  lemma {:induction false} ReloadIsFaithful(s: State, rules: seq<ManualForward>, answers: seq<Answers>)
    requires |answers| == |rules| && KeyUnique(rules)
    requires s.forwards == map[] && s.live == map[] && s.next + |rules| <= U64_MAX
    ensures var (s', failure) := Reload(s, rules, answers);
            && Inv(s') && s'.next <= s.next + |rules|
            && (failure.None? <==> AllServed(s, rules, answers))
            && (failure.None? ==> Loaded(s, rules, answers, s'))
  {
    hide Loaded, Served, AllServed, ReloadOne, LoadedEntry, Entries, Truthful, ForwardId, Held, FirstUsable;
    if rules == [] {
      NothingReloaded(s);
    } else {
      var n := |rules| - 1;
      var front, known, m, a := rules[..n], answers[..n], rules[n], answers[n];
      assert rules == front + [m] && answers == known + [a];
      ReloadIsFaithful(s, front, known);
      ServedOneMore(s, front, known, m, a);
      var (before, failure) := Reload(s, front, known);
      if failure.None? {
        RuleIsNotHeld(s, front, known, before, m);
        LoadNew(before, m, a);
        LoadedSize(s, front, known, before);
        ServedMeans(s, rules, answers, n);
        var (after, outcome) := ReloadOne(before, m, a);
        ReloadOneKeepsInv(before, m, a);
        if outcome.Ok? {
          LoadedOneMore(s, front, known, before, m, a, after);
        }
      }
    }
  }

  lemma NothingReloaded(s: State)
    requires s.forwards == map[] && s.live == map[] && s.next <= U64_MAX
    ensures Inv(s) && Loaded(s, [], [], s) && AllServed(s, [], [])
  {
  }

  lemma LoadedSize(s: State, rules: seq<ManualForward>, answers: seq<Answers>, s': State)
    requires |answers| == |rules| && Loaded(s, rules, answers, s')
    ensures |s'.forwards| == |rules| && s'.next == s.next + |rules|
  {
  }

  lemma ServedMeans(s: State, rules: seq<ManualForward>, answers: seq<Answers>, n: nat)
    requires |answers| == |rules| && n < |rules|
    ensures Served(s, rules, answers, n) <==>
            var m, a := rules[n], answers[n];
            && Loadable(m) && n < MAX_FORWARDS
            && (m.enabled ==>
                  FirstUsable(Reload(s, rules[..n], answers[..n]).0.forwards, None, a.free,
                      WantedPort(m)).Some? && a.first)
  {
    hide Reload, FirstUsable;
  }

  lemma ReloadOneKeepsInv(s: State, m: ManualForward, a: Answers)
    requires Inv(s) && s.next < U64_MAX
    ensures Inv(ReloadOne(s, m, a).0)
  {
    hide Entries, Truthful, Create;
    CreateKeepsInv(s, RuleRequest(m), m.enabled, a.free, a.first, a.now);
  }

  /** Saving and reloading: the rule saved for an entry comes back as an entry that
      would save the same rule, except that an enabled one may have moved up. */
  lemma SavedRulesComeBack(f: Forward, g: Forward, a: Answers, earlier: Forwards)
    requires WellFormedEntry(f) && LoadedEntry(g, Mapping(f), a, earlier)
    ensures if f.enabled then Mapping(g) == Mapping(f).(localPort := g.localPort) && f.localPort <= g.localPort
            else Mapping(g) == Mapping(f)
    ensures g.remotePort == f.remotePort && g.remoteHost == f.remoteHost && g.enabled == f.enabled && !g.automatic
    ensures f.enabled ==> FirstUsable(earlier, None, a.free, f.localPort) == Some(g.localPort)
    ensures !f.enabled ==> g.localPort == f.localPort
  {
    hide FirstUsable;
  }
}
