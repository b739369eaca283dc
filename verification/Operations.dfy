/** The mutations a companion serves, and what each decides about the saved preferences
    (src/bin/local/companion.rs). */
module Operations {
  import opened Wrappers
  import opened Detect
  import opened Model
  import opened RegistrySpec
  import opened RegistryProofs
  import opened Preferences
  import opened RegistryEffects

  /** The four mutations the companion serves. */
  datatype Operation =
    | OpCreate(request: ForwardRequest)
    | OpRemove(id: string)
    | OpToggle(id: string, enabled: bool)
    | OpLocalPort(id: string, port: Port)

  /** Free ports, the outcomes of up to three SSH calls, and the time. */
  datatype Answers = Answers(free: Port -> bool, first: bool, second: bool, third: bool, now: nat)

  /** A detected port that the user paused is created without a tunnel. */
  predicate StartsEnabled(r: ForwardRequest, paused: set<Port>) { !(r.automatic && r.remotePort in paused) }

  ghost function CallOf(op: Operation, paused: set<Port>, a: Answers): Call {
    match op
    case OpCreate(r) => CallCreate(r, StartsEnabled(r, paused), a.free, a.first, a.now)
    case OpRemove(id) => CallRemove(id, a.first)
    case OpToggle(id, enabled) => CallSetEnabled(id, enabled, a.free, a.first, a.now)
    case OpLocalPort(id, port) => CallSetLocalPort(id, port, a.free, a.first, a.second, a.third, a.now)
  }

  // ---------------------------------------------------------------------------
  // What a served mutation has done
  // ---------------------------------------------------------------------------

  /** A new entry is for the endpoint asked for. It is paused, without a tunnel, exactly
      if it was detected and its port is among the paused ones; otherwise its tunnel has
      been opened. An entry of the endpoint keeps its switch and its tunnel. */
  ghost predicate CreatedAsAsked(s: State, r: ForwardRequest, paused: set<Port>, f: Forward, s': State) {
    && s'.forwards == s.forwards[f.id := f]
    && f.remotePort == r.remotePort && f.remoteHost == HostOf(r)
    && (f.id in s.forwards <==> Forwarded(s.forwards, HostOf(r), r.remotePort))
    && if f.id in s.forwards then
         && s'.live == s.live && f.enabled == s.forwards[f.id].enabled && f.localPort == s.forwards[f.id].localPort
         && f.automatic == s.forwards[f.id].automatic && Target(f) == Target(s.forwards[f.id])
       else
         && f.automatic == r.automatic
         && (f.enabled <==> !(r.automatic && r.remotePort in paused))
         && (!f.enabled ==> s'.live == s.live)
         && (f.enabled ==>
               f.localPort !in s.live && s'.live == s.live[f.localPort := Endpoint(HostOf(r), r.remotePort)])
  }

  /** The answer to a served mutation, and the change it stands for. */
  ghost predicate DoneAsAsked(s: State, op: Operation, paused: set<Port>, answer: Option<Forward>, s': State) {
    match op
    case OpCreate(r) => answer.Some? && CreatedAsAsked(s, r, paused, answer.value, s')
    case OpRemove(id) =>
      && s'.forwards == s.forwards - {id}
      && answer == if id in s.forwards then Some(s.forwards[id]) else None
    case OpToggle(id, enabled) =>
      if id !in s.forwards then answer.None? && s' == s
      else if s.forwards[id].enabled == enabled then answer == Some(s.forwards[id]) && s' == s
      else answer.Some? && answer.value.enabled == enabled && OnlyMoved(s, id, answer.value, s')
    case OpLocalPort(id, port) =>
      if id !in s.forwards then answer.None? && s' == s
      else answer.Some? && answer.value.localPort == port && OnlyMoved(s, id, answer.value, s')
           && answer.value.enabled == s.forwards[id].enabled
  }

  /** Every mutation that succeeds has done what was asked. */
  lemma ServedAsAsked(s: State, op: Operation, paused: set<Port>, a: Answers)
    requires Entries(s.forwards, s.next) && s.next < U64_MAX
    ensures var answer := Answer(s, CallOf(op, paused, a));
            answer.Ok? ==> DoneAsAsked(s, op, paused, answer.value, Step(s, CallOf(op, paused, a)))
  {
    hide Entries, FirstUsable, Create, CreateAsks, CreatedAsAsked;
    match op {
      case OpCreate(r) => CreationAsAsked(s, r, paused, a);
      case _ =>
    }
  }

  lemma CreationAsAsked(s: State, r: ForwardRequest, paused: set<Port>, a: Answers)
    requires Entries(s.forwards, s.next) && s.next < U64_MAX
    ensures var (s', outcome) := Create(s, r, StartsEnabled(r, paused), a.free, a.first, a.now);
            outcome.Ok? ==> CreatedAsAsked(s, r, paused, outcome.value.0, s')
  {
    hide Create, CreateAsks, Validate, FirstUsable, ForwardId, Forwarded, Issued, DistinctTargets, DistinctPorts,
         WellFormedEntry;
    CreationEffect(s, r, StartsEnabled(r, paused), a.free, a.first, a.now);
    NextIdIsNew(s.forwards, s.next);
  }

  /** What one served mutation decides about the saved preferences. */
  datatype Event =
    | Nothing
    | Pause(port: Port)
    | Resume(port: Port)
    | SaveRule(rule: ManualForward)
    | ForgetRule(key: Endpoint)

  /** The decision, read off the request and what became of the entry it names. */
  ghost function EventOf(s: State, op: Operation, s': State): Event {
    match op
    case OpCreate(r) =>
      var id := ForwardId(s'.next);
      if s'.next == s.next || id !in s'.forwards then Nothing
      else if !r.automatic then SaveRule(Mapping(s'.forwards[id]))
      else if s'.forwards[id].enabled then Nothing
      else Pause(r.remotePort)
    case OpRemove(id) =>
      if id in s.forwards && id !in s'.forwards && !s.forwards[id].automatic then ForgetRule(EntryKey(s.forwards[id]))
      else Nothing
    case OpToggle(id, enabled) =>
      if id !in s.forwards || id !in s'.forwards || s'.forwards[id].enabled == s.forwards[id].enabled then Nothing
      else ChangeEvent(s'.forwards[id])
    case OpLocalPort(id, port) =>
      if id !in s.forwards || id !in s'.forwards then Nothing
      else if s.forwards[id].automatic && s'.forwards[id].enabled == s.forwards[id].enabled then Nothing
      else if Mapping(s'.forwards[id]) == Mapping(s.forwards[id]) then Nothing
      else ChangeEvent(s'.forwards[id])
  }

  function ChangeEvent(f: Forward): Event {
    if !f.automatic then SaveRule(Mapping(f))
    else if f.enabled then Resume(f.remotePort)
    else Pause(f.remotePort)
  }

  /** The decisions in force: one rule per endpoint, and the paused ports. */
  datatype Decisions = Decisions(rules: map<Endpoint, ManualForward>, paused: set<Port>)

  function Decide(d: Decisions, e: Event): Decisions {
    match e
    case Nothing => d
    case Pause(port) => d.(paused := d.paused + {port})
    case Resume(port) => d.(paused := d.paused - {port})
    case SaveRule(rule) => d.(rules := d.rules[RuleKey(rule) := rule])
    case ForgetRule(key) => d.(rules := d.rules - {key})
  }

  ghost predicate ShowsRule(rules: seq<ManualForward>, table: map<Endpoint, ManualForward>, k: Endpoint) {
    Matching(rules, k) == if k in table then [table[k]] else []
  }

  /** The saved files hold exactly these decisions. */
  ghost predicate Shows(rules: seq<ManualForward>, paused: set<Port>, d: Decisions) {
    (forall k :: ShowsRule(rules, d.rules, k)) && paused == d.paused
  }

  // ---------------------------------------------------------------------------
  // One transaction
  // ---------------------------------------------------------------------------

  /** Only the entry `id` differs. */
  ghost predicate OnlyChange(before: Forwards, after: Forwards, id: string) {
    forall other :: other != id ==> (other in before <==> other in after) && (other in before ==>
        before[other] == after[other])
  }

  /** The preference event that a change of this one entry stands for. */
  ghost function EventAt(before: Forwards, after: Forwards, id: string): Event {
    if Puts(before, after, id) then SaveRule(Mapping(after[id]))
    else if Drops(before, after, id) then ForgetRule(EntryKey(before[id]))
    else if Pauses(before, after, id) then Pause(after[id].remotePort)
    else if Resumes(before, after, id) then Resume(after[id].remotePort)
    else Nothing
  }

  /** A change of one entry puts and drops the keys of that entry only. */
  lemma OneKey(before: Forwards, after: Forwards, id: string, k: Endpoint)
    requires OnlyChange(before, after, id)
    ensures PutsKey(before, after, k) <==> Puts(before, after, id) && EntryKey(after[id]) == k
    ensures DropsKey(before, after, k) <==> Drops(before, after, id) && EntryKey(before[id]) == k
  {
  }

  lemma MergingRule(before: Forwards, after: Forwards, id: string, rules: seq<ManualForward>, d: Decisions,
                    rules': seq<ManualForward>, k: Endpoint)
    requires OnlyChange(before, after, id) && ShowsRule(rules, d.rules, k)
    requires MergedRules(before, after, rules, rules')
    ensures ShowsRule(rules', Decide(d, EventAt(before, after, id)).rules, k)
  {
    hide OnlyChange;
    OneKey(before, after, id, k);
  }

  lemma MergingRules(before: Forwards, after: Forwards, id: string, rules: seq<ManualForward>, d: Decisions,
                     rules': seq<ManualForward>)
    requires OnlyChange(before, after, id) && (forall k :: ShowsRule(rules, d.rules, k))
    requires MergedRules(before, after, rules, rules')
    ensures forall k :: ShowsRule(rules', Decide(d, EventAt(before, after, id)).rules, k)
  {
    hide ShowsRule, Decide, EventAt, OnlyChange, MergedRules;
    forall k
      ensures ShowsRule(rules', Decide(d, EventAt(before, after, id)).rules, k)
    {
      MergingRule(before, after, id, rules, d, rules', k);
    }
  }

  lemma MergingPauses(before: Forwards, after: Forwards, id: string, d: Decisions, paused': set<Port>)
    requires OnlyChange(before, after, id) && MergedPauses(before, after, d.paused, paused')
    ensures paused' == Decide(d, EventAt(before, after, id)).paused
  {
    var e := EventAt(before, after, id);
    forall p: Port
      ensures p in paused' <==> p in Decide(d, e).paused
    {
      assert PausesPort(before, after, p) <==> Pauses(before, after, id) && after[id].remotePort == p;
      assert ResumesPort(before, after, p) <==> Resumes(before, after, id) && after[id].remotePort == p;
    }
  }

  /** Merging the change of one entry applies its one decision. */
  lemma MergingRecordsTheEvent(before: Forwards, after: Forwards, id: string,
                               rules: seq<ManualForward>, paused: set<Port>, d: Decisions,
                               rules': seq<ManualForward>, paused': set<Port>)
    requires OnlyChange(before, after, id) && Shows(rules, paused, d)
    requires MergedRules(before, after, rules, rules') && MergedPauses(before, after, paused, paused')
    ensures Shows(rules', paused', Decide(d, EventAt(before, after, id)))
  {
    hide ShowsRule, Decide, EventAt, OnlyChange, MergedRules, MergedPauses;
    MergingRules(before, after, id, rules, d, rules');
    MergingPauses(before, after, id, d, paused');
  }

  /** Some entry explains the whole change, and explains it as the event. */
  ghost predicate Explains(before: Forwards, after: Forwards, e: Event) {
    exists id :: OnlyChange(before, after, id) && EventAt(before, after, id) == e
  }

  lemma ExplainedBy(before: Forwards, after: Forwards, id: string, e: Event)
    requires OnlyChange(before, after, id) && EventAt(before, after, id) == e
    ensures Explains(before, after, e)
  {
  }

  lemma CreationEvent(s: State, r: ForwardRequest, enabled: bool, free: Port -> bool, opens: bool, now: nat)
    requires Entries(s.forwards, s.next) && s.next < U64_MAX && (!r.automatic ==> enabled)
    ensures var s' := Create(s, r, enabled, free, opens, now).0;
            Explains(s.forwards, s'.forwards, EventOf(s, OpCreate(r), s'))
  {
    hide *;
    var s' := Create(s, r, enabled, free, opens, now).0;
    CreateCases(s, r, enabled, free, opens, now);
    if Validate(r).Some? {
      NoChange(s, OpCreate(r));
    } else if Held(s.forwards, RequestTarget(r)) {
      var id := Holder(s.forwards, RequestTarget(r));
      EnrichmentEvent(s, r, id, now);
    } else {
      NewEntryEvent(s, r, enabled, free, opens, now);
    }
  }

  lemma NoChange(s: State, op: Operation)
    ensures Explains(s.forwards, s.forwards, EventOf(s, op, s))
  {
    var id := if op.OpCreate? then "" else op.id;
    ExplainedBy(s.forwards, s.forwards, id, EventOf(s, op, s));
  }

  lemma EnrichmentEvent(s: State, r: ForwardRequest, id: string, now: nat)
    requires Holds(s.forwards, RequestTarget(r), id)
    ensures var s' := s.(forwards := s.forwards[id := Enriched(s.forwards[id], r, now)]);
            Explains(s.forwards, s'.forwards, EventOf(s, OpCreate(r), s'))
  {
    hide ForwardId;
    var s' := s.(forwards := s.forwards[id := Enriched(s.forwards[id], r, now)]);
    ExplainedBy(s.forwards, s'.forwards, id, EventOf(s, OpCreate(r), s'));
  }

  lemma NewEntryEvent(s: State, r: ForwardRequest, enabled: bool, free: Port -> bool, opens: bool, now: nat)
    requires Entries(s.forwards, s.next) && s.next < U64_MAX && (!r.automatic ==> enabled)
    ensures var s' := CreateNew(s, r, enabled, free, opens, now).0;
            Explains(s.forwards, s'.forwards, EventOf(s, OpCreate(r), s'))
  {
    hide ForwardId, FirstUsable, Entries;
    NextIdIsNew(s.forwards, s.next);
    var (s', outcome) := CreateNew(s, r, enabled, free, opens, now);
    if outcome.Ok? {
      ExplainedBy(s.forwards, s'.forwards, ForwardId(s'.next), EventOf(s, OpCreate(r), s'));
    } else {
      NoChange(s, OpCreate(r));
    }
  }

  /** Every served mutation changes one entry, and what it changes is the decision
      read off the request. */
  lemma OperationEvent(s: State, op: Operation, paused: set<Port>, a: Answers)
    requires Entries(s.forwards, s.next) && s.next < U64_MAX
    ensures var s' := Step(s, CallOf(op, paused, a));
            Explains(s.forwards, s'.forwards, EventOf(s, op, s'))
  {
    hide Create, Explains, EventOf, EventAt, OnlyChange, Entries, FirstUsable, PortTaken;
    var s' := Step(s, CallOf(op, paused, a));
    match op
    case OpCreate(r) =>
      CreationEvent(s, r, StartsEnabled(r, paused), a.free, a.first, a.now);
    case OpRemove(id) =>
      if s' == s { NoChange(s, op); } else { EntryEvent(s, op, s'); }
    case OpToggle(id, enabled) =>
      if s' == s { NoChange(s, op); } else { EntryEvent(s, op, s'); }
    case OpLocalPort(id, port) =>
      if s' == s { NoChange(s, op); } else { EntryEvent(s, op, s'); }
  }

  lemma EntryEvent(s: State, op: Operation, s': State)
    requires !op.OpCreate? && op.id in s.forwards
    requires if op.OpRemove? then s'.forwards == s.forwards - {op.id}
             else op.id in s'.forwards && s'.forwards == s.forwards[op.id := s'.forwards[op.id]]
    requires !op.OpRemove? ==>
               var f, g := s.forwards[op.id], s'.forwards[op.id];
               g == f.(localPort := g.localPort, enabled := g.enabled, tunnelOpenedAt := g.tunnelOpenedAt)
    requires op.OpLocalPort? ==> (s'.forwards[op.id].enabled ==> s.forwards[op.id].enabled)
    requires op.OpToggle? ==> s'.forwards[op.id].enabled != s.forwards[op.id].enabled
    ensures Explains(s.forwards, s'.forwards, EventOf(s, op, s'))
  {
    ExplainedBy(s.forwards, s'.forwards, op.id, EventOf(s, op, s'));
  }

  // ---------------------------------------------------------------------------
  // What is saved
  // ---------------------------------------------------------------------------

  /** The saved rules of all endpoints except this one are as before. */
  ghost predicate OtherRules(rules: seq<ManualForward>, rules': seq<ManualForward>, k: Endpoint) {
    forall other :: other != k ==> Matching(rules', other) == Matching(rules, other)
  }

  ghost predicate SameRules(rules: seq<ManualForward>, rules': seq<ManualForward>) {
    forall k :: Matching(rules', k) == Matching(rules, k)
  }

  /** The one rule for the endpoint of this entry is the entry's own. */
  ghost predicate RuleSaved(rules: seq<ManualForward>, rules': seq<ManualForward>, f: Forward) {
    && OtherRules(rules, rules', Target(f))
    && Matching(rules', Target(f)) == [ManualForward(f.remotePort, f.localPort, f.remoteHost, f.enabled)]
  }

  /** What is saved of a mutation that succeeded. A pause is of the port of a detected
      forward, set by switching it off and lifted by switching it on, and survives its
      removal; a rule is of a manual forward and goes with it; a detected forward that is
      created or moved to another port leaves the files alone. */
  ghost predicate SavedAsAsked(s: State, op: Operation, answer: Option<Forward>, s': State, rules: seq<ManualForward>,
                               paused: set<Port>, rules': seq<ManualForward>, paused': set<Port>) {
    match op
    case OpCreate(r) =>
      && paused' == paused
      && if answer.None? || answer.value.id in s.forwards || r.automatic then SameRules(rules, rules')
         else RuleSaved(rules, rules', answer.value)
    case OpRemove(id) =>
      && paused' == paused
      && if id !in s.forwards || s.forwards[id].automatic then SameRules(rules, rules')
         else OtherRules(rules, rules', Target(s.forwards[id])) && Matching(rules', Target(s.forwards[id])) == []
    case OpToggle(id, enabled) =>
      if id !in s.forwards || s.forwards[id].enabled == enabled then SameRules(rules, rules') && paused' == paused
      else if s.forwards[id].automatic then
        && SameRules(rules, rules')
        && paused' == if enabled then paused - {s.forwards[id].remotePort} else paused + {s.forwards[id].remotePort}
      else answer.Some? && RuleSaved(rules, rules', answer.value) && paused' == paused
    case OpLocalPort(id, port) =>
      && paused' == paused
      && if id !in s.forwards || s.forwards[id].automatic || s.forwards[id].localPort == port
         then SameRules(rules, rules')
         else answer.Some? && RuleSaved(rules, rules', answer.value)
  }

  lemma CommitSaves(s: State, op: Operation, paused: set<Port>, a: Answers, rules: seq<ManualForward>,
                    rules': seq<ManualForward>, paused': set<Port>)
    requires Entries(s.forwards, s.next) && s.next < U64_MAX
    requires var s' := Step(s, CallOf(op, paused, a));
             && MergedRules(s.forwards, s'.forwards, rules, rules')
             && MergedPauses(s.forwards, s'.forwards, paused, paused')
    ensures var answer := Answer(s, CallOf(op, paused, a));
            answer.Ok? ==>
              SavedAsAsked(s, op, answer.value, Step(s, CallOf(op, paused, a)), rules, paused, rules', paused')
  {
    hide *;
    var s', answer := Step(s, CallOf(op, paused, a)), Answer(s, CallOf(op, paused, a));
    ServedAsAsked(s, op, paused, a);
    if answer.Ok? {
      var id := ChangedId(s, op, paused, answer.value, s');
      OneEntrySaved(s.forwards, s'.forwards, id, rules, paused, rules', paused');
      StepKeepsInv(s, CallOf(op, paused, a));
      SavedOfOne(s, op, paused, answer.value, s', id, rules, rules', paused');
    }
  }

  lemma ChangedId(s: State, op: Operation, paused: set<Port>, answer: Option<Forward>, s': State) returns (id: string)
    requires DoneAsAsked(s, op, paused, answer, s')
    ensures OnlyChange(s.forwards, s'.forwards, id)
    ensures id == if op.OpCreate? then (if answer.Some? then answer.value.id else "") else op.id
  {
    id := if op.OpCreate? then (if answer.Some? then answer.value.id else "") else op.id;
  }

  /** The saved files after a change of one entry. */
  ghost predicate SavedOne(before: Forwards, after: Forwards, id: string, rules: seq<ManualForward>, paused: set<Port>,
                           rules': seq<ManualForward>, paused': set<Port>) {
    && (forall k :: Matching(rules', k) ==
          if Puts(before, after, id) && EntryKey(after[id]) == k then [Mapping(after[id])]
          else if Drops(before, after, id) && EntryKey(before[id]) == k then []
          else Matching(rules, k))
    && paused' == if Pauses(before, after, id) then paused + {after[id].remotePort}
                  else if Resumes(before, after, id) then paused - {after[id].remotePort} else paused
  }

  lemma OneEntrySaved(before: Forwards, after: Forwards, id: string, rules: seq<ManualForward>, paused: set<Port>,
                      rules': seq<ManualForward>, paused': set<Port>)
    requires OnlyChange(before, after, id)
    requires MergedRules(before, after, rules, rules') && MergedPauses(before, after, paused, paused')
    ensures SavedOne(before, after, id, rules, paused, rules', paused')
  {
    hide Matching, Mapping, EntryKey, OnlyChange;
    forall k
      ensures Matching(rules', k) ==
              if Puts(before, after, id) && EntryKey(after[id]) == k then [Mapping(after[id])]
              else if Drops(before, after, id) && EntryKey(before[id]) == k then []
              else Matching(rules, k)
    {
      OneKey(before, after, id, k);
    }
    MergingPauses(before, after, id, Decisions(map[], paused), paused');
  }

  lemma KeysAreTargets(fw: Forwards, next: nat)
    requires Entries(fw, next)
    ensures forall id :: id in fw ==> EntryKey(fw[id]) == Target(fw[id])
  {
    hide Issued, DistinctTargets, DistinctPorts;
    forall id | id in fw
      ensures EntryKey(fw[id]) == Target(fw[id])
    {
      assert WellFormedEntry(fw[id]);
    }
  }

  /** The two keys of an entry, and the rule that stands for it. */
  ghost predicate Keyed(fw: Forwards, id: string) {
    id in fw ==>
      && EntryKey(fw[id]) == Target(fw[id])
      && Mapping(fw[id]) == ManualForward(fw[id].remotePort, fw[id].localPort, fw[id].remoteHost, fw[id].enabled)
  }

  lemma EntriesAreKeyed(fw: Forwards, next: nat, id: string)
    requires Entries(fw, next)
    ensures Keyed(fw, id)
  {
    hide Entries, EntryKey, Target;
    KeysAreTargets(fw, next);
  }

  lemma SavedOfOne(s: State, op: Operation, paused: set<Port>, answer: Option<Forward>, s': State, id: string,
                   rules: seq<ManualForward>, rules': seq<ManualForward>, paused': set<Port>)
    requires Entries(s.forwards, s.next) && Entries(s'.forwards, s'.next)
    requires DoneAsAsked(s, op, paused, answer, s')
    requires id == if op.OpCreate? then (if answer.Some? then answer.value.id else "") else op.id
    requires SavedOne(s.forwards, s'.forwards, id, rules, paused, rules', paused')
    ensures SavedAsAsked(s, op, answer, s', rules, paused, rules', paused')
  {
    hide *;
    EntriesAreKeyed(s.forwards, s.next, id);
    EntriesAreKeyed(s'.forwards, s'.next, id);
    match op
    case OpCreate(r) => SavedCreation(s, r, paused, answer, s', id, rules, rules', paused');
    case OpRemove(_) => SavedRemoval(s, id, paused, answer, s', rules, rules', paused');
    case OpToggle(_, enabled) => SavedToggle(s, id, enabled, paused, answer, s', rules, rules', paused');
    case OpLocalPort(_, port) => SavedPort(s, id, port, paused, answer, s', rules, rules', paused');
  }

  lemma SavedCreation(s: State, r: ForwardRequest, paused: set<Port>, answer: Option<Forward>, s': State, id: string,
                      rules: seq<ManualForward>, rules': seq<ManualForward>, paused': set<Port>)
    requires DoneAsAsked(s, OpCreate(r), paused, answer, s') && id == if answer.Some? then answer.value.id else ""
    requires Keyed(s.forwards, id) && Keyed(s'.forwards, id)
    requires SavedOne(s.forwards, s'.forwards, id, rules, paused, rules', paused')
    ensures SavedAsAsked(s, OpCreate(r), answer, s', rules, paused, rules', paused')
  {
    hide Matching, Forwarded, EntryKey;
  }

  lemma SavedRemoval(s: State, id: string, paused: set<Port>, answer: Option<Forward>, s': State,
                     rules: seq<ManualForward>, rules': seq<ManualForward>, paused': set<Port>)
    requires DoneAsAsked(s, OpRemove(id), paused, answer, s') && Keyed(s.forwards, id)
    requires SavedOne(s.forwards, s'.forwards, id, rules, paused, rules', paused')
    ensures SavedAsAsked(s, OpRemove(id), answer, s', rules, paused, rules', paused')
  {
    hide Matching, EntryKey, Target;
  }

  lemma SavedToggle(s: State, id: string, enabled: bool, paused: set<Port>, answer: Option<Forward>, s': State,
                    rules: seq<ManualForward>, rules': seq<ManualForward>, paused': set<Port>)
    requires DoneAsAsked(s, OpToggle(id, enabled), paused, answer, s')
    requires Keyed(s.forwards, id) && Keyed(s'.forwards, id)
    requires SavedOne(s.forwards, s'.forwards, id, rules, paused, rules', paused')
    ensures SavedAsAsked(s, OpToggle(id, enabled), answer, s', rules, paused, rules', paused')
  {
    hide Matching, EntryKey, Target;
  }

  lemma SavedPort(s: State, id: string, port: Port, paused: set<Port>, answer: Option<Forward>, s': State,
                  rules: seq<ManualForward>, rules': seq<ManualForward>, paused': set<Port>)
    requires DoneAsAsked(s, OpLocalPort(id, port), paused, answer, s')
    requires Keyed(s.forwards, id) && Keyed(s'.forwards, id)
    requires SavedOne(s.forwards, s'.forwards, id, rules, paused, rules', paused')
    ensures SavedAsAsked(s, OpLocalPort(id, port), answer, s', rules, paused, rules', paused')
  {
    hide Matching, EntryKey, Target;
  }
}
